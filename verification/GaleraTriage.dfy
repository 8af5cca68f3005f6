// The Galera authority verdict, and exactly when a stale hint could sway it.
module GaleraTriage {
  import opened Options

  /** A cluster UUID as the sources spell it: the empty string, "unknown", the all-zero UUID of
      a node that never joined, or a real lineage. */
  datatype UUID = NoUUID | UnknownUUID | ZeroUUID | Lineage(id: string)

  datatype Grastate = Grastate(pod: string, uuid: UUID, seqno: int)
  datatype WsrepStatus = WsrepStatus(lastCommitted: int, clusterStatus: string, stateUUID: UUID)
  datatype WsrepRecover = WsrepRecover(uuid: UUID, seqno: int, lastCommitted: int, valid: bool)

  /** The authoritative readings: on-disk grastate, live wsrep status, fenced wsrep_recover. */
  datatype Readings = Readings(
    grastates: seq<Grastate>,
    wsrep: map<string, WsrepStatus>,
    recovered: map<string, WsrepRecover>)

  /** The stale sources: log scrapes and gcache estimates, and the operator's snapshot. */
  datatype Hints = Hints(
    logSeqno: map<string, int>,
    crRecovered: map<string, int>,
    crState: map<string, int>,
    logUUIDs: set<UUID>,
    recoveryUUIDs: set<UUID>)

  datatype Outcome = Provable | Diverged | Undeterminable

  datatype Effective = Effective(value: int, known: bool)

  predicate DistinctPods(grastates: seq<Grastate>) {
    forall i, j :: 0 <= i < j < |grastates| ==> grastates[i].pod != grastates[j].pod
  }

  // ----- effective positions -----

  /** The largest positive candidate, -1 if there is none. */
  function MaxPositive(cands: seq<int>): (m: int)
    ensures m == -1 || (m > 0 && m in cands)
    ensures forall c :: c in cands && c > 0 ==> c <= m
  {
    if cands == [] then -1
    else
      var init, last := cands[..|cands| - 1], cands[|cands| - 1];
      assert cands == init + [last];
      if last > 0 && last > MaxPositive(init) then last else MaxPositive(init)
  }

  method DeriveEffectiveSeqno(authoritative: seq<int>, hints: seq<int>) returns (e: Effective)
    ensures e.known <==> MaxPositive(authoritative) > 0
    ensures e.value == if e.known then MaxPositive(authoritative) else MaxPositive(hints)
  {
    var best, known := -1, false;
    for i := 0 to |authoritative|
      invariant best == MaxPositive(authoritative[..i]) && known == (best > 0)
    {
      assert authoritative[..i + 1][..i] == authoritative[..i];
      if authoritative[i] > 0 && authoritative[i] > best {
        best, known := authoritative[i], true;
      }
    }
    assert authoritative[..|authoritative|] == authoritative;
    if !known {
      for i := 0 to |hints|
        invariant best == MaxPositive(hints[..i])
      {
        assert hints[..i + 1][..i] == hints[..i];
        if hints[i] > 0 && hints[i] > best {
          best := hints[i];
        }
      }
      assert hints[..|hints|] == hints;
    }
    e := Effective(best, known);
  }

  function Lookup(m: map<string, int>, pod: string): int {
    if pod in m then m[pod] else -1
  }

  function AuthoritativeSources(r: Readings, g: Grastate): seq<int> {
    [if g.pod in r.recovered && r.recovered[g.pod].valid then r.recovered[g.pod].seqno else -1,
     if g.pod in r.wsrep then r.wsrep[g.pod].lastCommitted else -1,
     g.seqno]
  }

  function HintSources(h: Hints, pod: string): seq<int> {
    [Lookup(h.logSeqno, pod), Lookup(h.crRecovered, pod), Lookup(h.crState, pod)]
  }

  function Position(r: Readings, g: Grastate): int {
    MaxPositive(AuthoritativeSources(r, g))
  }

  predicate Known(r: Readings, g: Grastate) {
    Position(r, g) > 0
  }

  function EffectiveOf(r: Readings, h: Hints, g: Grastate): Effective {
    if Known(r, g) then Effective(Position(r, g), true) else Effective(MaxPositive(HintSources(h, g.pod)), false)
  }

  /** The best-seqno node: the first of the most advanced Known positions. */
  function BestNode(r: Readings, n: nat): (string, int)
    requires n <= |r.grastates|
  {
    if n == 0 then ("", -2)
    else
      var (pod, best) := BestNode(r, n - 1);
      var g := r.grastates[n - 1];
      if Known(r, g) && Position(r, g) > best then (g.pod, Position(r, g)) else (pod, best)
  }

  lemma {:induction false} BestNodeIsMax(r: Readings, n: nat)
    requires n <= |r.grastates|
    ensures forall i :: 0 <= i < n && Known(r, r.grastates[i]) ==> Position(r, r.grastates[i]) <= BestNode(r, n).1
    ensures BestNode(r, n) == ("", -2) ||
            exists i :: 0 <= i < n && Known(r, r.grastates[i]) &&
              BestNode(r, n) == (r.grastates[i].pod, Position(r, r.grastates[i]))
  {
    if n > 0 { BestNodeIsMax(r, n - 1); }
  }

  // ----- lineage evidence -----

  predicate ValidUUID(u: UUID) {
    u.Lineage?
  }

  function GrastateUUID(grastates: seq<Grastate>, pod: string): UUID {
    if grastates == [] then NoUUID
    else if grastates[0].pod == pod then grastates[0].uuid
    else GrastateUUID(grastates[1..], pod)
  }

  /** A fresh fenced recover, else the live status, else grastate. */
  function CanonicalUUID(r: Readings, pod: string): UUID {
    if pod in r.recovered && r.recovered[pod].valid then r.recovered[pod].uuid
    else if pod in r.wsrep && r.wsrep[pod].stateUUID != NoUUID then r.wsrep[pod].stateUUID
    else GrastateUUID(r.grastates, pod)
  }

  function Nodes(r: Readings): set<string> {
    (set g | g in r.grastates :: g.pod) + r.wsrep.Keys + r.recovered.Keys
  }

  function AuthoritativeUUIDs(r: Readings): set<UUID> {
    set pod | pod in Nodes(r) && ValidUUID(CanonicalUUID(r, pod)) :: CanonicalUUID(r, pod)
  }

  function UUIDs(r: Readings, h: Hints): set<UUID> {
    if AuthoritativeUUIDs(r) != {} then AuthoritativeUUIDs(r)
    else set u | u in h.logUUIDs + h.recoveryUUIDs && ValidUUID(u)
  }

  predicate IsPrimaryMember(r: Readings, pod: string) {
    pod in r.wsrep && r.wsrep[pod].clusterStatus == "Primary"
  }

  predicate OutsidePrimary(r: Readings) {
    exists pod :: pod in r.wsrep && r.wsrep[pod].clusterStatus != "" && r.wsrep[pod].clusterStatus != "Primary"
  }

  ghost predicate HasPrimary(r: Readings) {
    exists pod :: IsPrimaryMember(r, pod)
  }

  /** A Known non-member is ahead of every primary member. */
  ghost predicate AheadOfPrimaries(r: Readings, h: Hints, g: Grastate) {
    && g in r.grastates && !IsPrimaryMember(r, g.pod) && Known(r, g)
    && forall m :: m in r.grastates && IsPrimaryMember(r, m.pod) ==> EffectiveOf(r, h, m).value < Position(r, g)
  }

  ghost predicate Divergent(r: Readings, h: Hints) {
    || |UUIDs(r, h)| > 1
    || OutsidePrimary(r)
    || (HasPrimary(r) && exists g :: AheadOfPrimaries(r, h, g))
  }

  /** pod is on the lineage of a live primary member. */
  ghost predicate OnQuorumLineage(r: Readings, pod: string) {
    exists m :: IsPrimaryMember(r, m) && ValidUUID(CanonicalUUID(r, m)) && CanonicalUUID(r, pod) == CanonicalUUID(r, m)
  }

  ghost predicate Blocks(r: Readings, h: Hints, g: Grastate) {
    g in r.grastates && !Known(r, g) && (Divergent(r, h) || !OnQuorumLineage(r, g.pod))
  }

  ghost function Verdict(r: Readings, h: Hints): Outcome {
    if exists g :: Blocks(r, h, g) then Undeterminable
    else if Divergent(r, h) then Diverged
    else Provable
  }

  // ----- the code -----

  ghost predicate Enumerates(order: seq<string>, keys: set<string>) {
    forall p :: p in order <==> p in keys
  }

  method CollectUUIDs(r: Readings, h: Hints, nodeOrder: seq<string>) returns (uuids: set<UUID>)
    requires Enumerates(nodeOrder, Nodes(r))
    ensures uuids == UUIDs(r, h)
  {
    uuids := {};
    for i := 0 to |nodeOrder|
      invariant uuids == set p | p in nodeOrder[..i] && ValidUUID(CanonicalUUID(r, p)) :: CanonicalUUID(r, p)
    {
      var u := CanonicalUUID(r, nodeOrder[i]);
      assert nodeOrder[..i + 1] == nodeOrder[..i] + [nodeOrder[i]];
      if ValidUUID(u) {
        uuids := uuids + {u};
      }
    }
    assert nodeOrder[..|nodeOrder|] == nodeOrder;
    assert uuids == AuthoritativeUUIDs(r);
    if uuids == {} {
      uuids := set u | u in h.logUUIDs + h.recoveryUUIDs && ValidUUID(u);
    }
  }

  method SeqnoOutsidePrimary(r: Readings, h: Hints, primaryMembers: seq<string>) returns (ahead: bool)
    requires DistinctPods(r.grastates)
    requires forall p :: p in primaryMembers <==> IsPrimaryMember(r, p)
    ensures ahead <==> HasPrimary(r) && exists g :: AheadOfPrimaries(r, h, g)
  {
    var best := -2;
    for i := 0 to |r.grastates|
      invariant best >= -2
      invariant forall j :: 0 <= j < i && r.grastates[j].pod in primaryMembers ==>
        EffectiveOf(r, h, r.grastates[j]).value <= best
      invariant best == -2 ||
                exists j :: 0 <= j < i && r.grastates[j].pod in primaryMembers &&
                  EffectiveOf(r, h, r.grastates[j]).value == best
    {
      var e := EffectiveOf(r, h, r.grastates[i]);
      if r.grastates[i].pod in primaryMembers && e.value > best {
        best := e.value;
      }
    }
    ahead := false;
    if primaryMembers == [] {
      return;
    }
    assert primaryMembers[0] in primaryMembers;
    for i := 0 to |r.grastates|
      invariant ahead <==> exists j :: 0 <= j < i && AheadOfPrimaries(r, h, r.grastates[j])
    {
      var g := r.grastates[i];
      var e := EffectiveOf(r, h, g);
      var isAhead := g.pod !in primaryMembers && e.known && e.value > best && e.value > 0;
      assert isAhead <==> AheadOfPrimaries(r, h, g) by {
        if AheadOfPrimaries(r, h, g) && best != -2 {
          var j :| 0 <= j < |r.grastates| && r.grastates[j].pod in primaryMembers &&
            EffectiveOf(r, h, r.grastates[j]).value == best;
          assert r.grastates[j] in r.grastates;
        }
      }
      ahead := ahead || isAhead;
    }
  }

  method MostAdvanced(r: Readings, h: Hints) returns (pod: string)
    ensures pod == BestNode(r, |r.grastates|).0
  {
    var best := -2;
    pod := "";
    for i := 0 to |r.grastates|
      invariant (pod, best) == BestNode(r, i)
    {
      var e := DeriveEffectiveSeqno(AuthoritativeSources(r, r.grastates[i]), HintSources(h, r.grastates[i].pod));
      if e.known && e.value > best {
        pod, best := r.grastates[i].pod, e.value;
      }
    }
  }

  method PrimaryMembers(r: Readings, wsrepOrder: seq<string>) returns (members: seq<string>, outside: bool)
    requires Enumerates(wsrepOrder, r.wsrep.Keys)
    ensures forall p :: p in members <==> IsPrimaryMember(r, p)
    ensures outside == OutsidePrimary(r)
  {
    members, outside := [], false;
    for i := 0 to |wsrepOrder|
      invariant forall p :: p in members <==> p in wsrepOrder[..i] && IsPrimaryMember(r, p)
      invariant outside ==> OutsidePrimary(r)
      invariant !outside ==> forall p :: p in wsrepOrder[..i] && p in r.wsrep ==>
                  r.wsrep[p].clusterStatus == "" || r.wsrep[p].clusterStatus == "Primary"
    {
      var p := wsrepOrder[i];
      assert p in wsrepOrder && wsrepOrder[..i + 1] == wsrepOrder[..i] + [p];
      if r.wsrep[p].clusterStatus == "Primary" {
        members := members + [p];
      } else if r.wsrep[p].clusterStatus != "" {
        outside := true;
      }
    }
    assert wsrepOrder[..|wsrepOrder|] == wsrepOrder;
  }

  ghost predicate IsQuorumUUID(r: Readings, u: UUID) {
    if u == NoUUID then forall m :: IsPrimaryMember(r, m) ==> !ValidUUID(CanonicalUUID(r, m))
    else exists m :: IsPrimaryMember(r, m) && ValidUUID(CanonicalUUID(r, m)) && CanonicalUUID(r, m) == u
  }

  method QuorumUUID(r: Readings, members: seq<string>) returns (u: UUID)
    requires forall p :: p in members <==> IsPrimaryMember(r, p)
    ensures IsQuorumUUID(r, u)
  {
    for i := 0 to |members|
      invariant forall j :: 0 <= j < i ==> !ValidUUID(CanonicalUUID(r, members[j]))
    {
      assert members[i] in members;
      if ValidUUID(CanonicalUUID(r, members[i])) {
        return CanonicalUUID(r, members[i]);
      }
    }
    u := NoUUID;
  }

  method UnreadBlocks(r: Readings, ghost h: Hints, divergent: bool, quorumUUID: UUID) returns (blocked: bool)
    requires divergent == Divergent(r, h) && IsQuorumUUID(r, quorumUUID)
    ensures blocked <==> exists g :: Blocks(r, h, g)
  {
    var cleanQuorum := !divergent && quorumUUID != NoUUID;
    blocked := false;
    for i := 0 to |r.grastates|
      invariant blocked <==> exists j :: 0 <= j < i && Blocks(r, h, r.grastates[j])
    {
      var g := r.grastates[i];
      if !divergent { QuorumHasOneLineage(r, h, quorumUUID, g.pod); }
      var stops := !Known(r, g) && !(cleanQuorum && CanonicalUUID(r, g.pod) == quorumUUID);
      assert stops == Blocks(r, h, g);
      blocked := blocked || stops;
    }
  }

  /** The whole comparison, for every order in which the maps may be walked. */
  method CrossInstanceComparison(r: Readings, h: Hints, nodeOrder: seq<string>, wsrepOrder: seq<string>)
    returns (outcome: Outcome, mostAdvanced: string)
    requires DistinctPods(r.grastates)
    requires Enumerates(nodeOrder, Nodes(r)) && Enumerates(wsrepOrder, r.wsrep.Keys)
    ensures outcome == Verdict(r, h)
    ensures mostAdvanced == BestNode(r, |r.grastates|).0
  {
    mostAdvanced := MostAdvanced(r, h);
    var uuids := CollectUUIDs(r, h, nodeOrder);
    var members, outside := PrimaryMembers(r, wsrepOrder);
    var ahead := SeqnoOutsidePrimary(r, h, members);
    var divergent := |uuids| > 1 || outside || ahead;
    assert divergent == Divergent(r, h);
    var quorumUUID := QuorumUUID(r, members);
    var blocked := UnreadBlocks(r, h, divergent, quorumUUID);
    outcome := if blocked then Undeterminable else if divergent then Diverged else Provable;
  }

  /** With at most one authoritative lineage, whichever member the quorum's UUID is read from
      gives the same answer. */
  lemma QuorumHasOneLineage(r: Readings, h: Hints, quorumUUID: UUID, pod: string)
    requires |UUIDs(r, h)| <= 1
    requires IsQuorumUUID(r, quorumUUID)
    ensures OnQuorumLineage(r, pod) <==> quorumUUID != NoUUID && CanonicalUUID(r, pod) == quorumUUID
  {
    forall m | IsPrimaryMember(r, m) && ValidUUID(CanonicalUUID(r, m))
      ensures CanonicalUUID(r, m) == quorumUUID
    {
      var n :| IsPrimaryMember(r, n) && ValidUUID(CanonicalUUID(r, n)) && CanonicalUUID(r, n) == quorumUUID;
      assert m in Nodes(r) && n in Nodes(r);
      assert CanonicalUUID(r, m) in AuthoritativeUUIDs(r) && CanonicalUUID(r, n) in AuthoritativeUUIDs(r);
      AtMostOne(UUIDs(r, h), CanonicalUUID(r, m), CanonicalUUID(r, n));
    }
  }

  lemma AtMostOne<T>(s: set<T>, x: T, y: T)
    requires |s| <= 1 && x in s && y in s
    ensures x == y
  {
    assert |s - {x}| == |s| - 1;
    assert s - {x} == {} && y !in s - {x};
  }

  // ----- the verdict, from the readings -----

  /** v is a position an authoritative source gives for the node. */
  predicate Reading(r: Readings, g: Grastate, v: int) {
    || v == g.seqno
    || (g.pod in r.wsrep && v == r.wsrep[g.pod].lastCommitted)
    || (g.pod in r.recovered && r.recovered[g.pod].valid && v == r.recovered[g.pod].seqno)
  }

  /** A position is Known when some source gives a positive one, and is then the largest given. */
  lemma PositionIsLargest(r: Readings, g: Grastate)
    ensures Known(r, g) <==> exists v :: v > 0 && Reading(r, g, v)
    ensures Known(r, g) ==> Reading(r, g, Position(r, g)) && forall v :: Reading(r, g, v) ==> v <= Position(r, g)
  {
    var sources := AuthoritativeSources(r, g);
    assert g.seqno == sources[2] && g.seqno in sources;
    assert g.pod in r.wsrep ==> r.wsrep[g.pod].lastCommitted == sources[1];
    assert g.pod in r.recovered && r.recovered[g.pod].valid ==> r.recovered[g.pod].seqno == sources[0];
    forall v | v > 0 ensures v in sources <==> Reading(r, g, v) {
      assert v in sources <==> v == sources[0] || v == sources[1] || v == sources[2];
    }
  }

  /** A position that is not Known is valued at the largest positive hint of the pod, if there is one. */
  lemma HintIsLargest(r: Readings, h: Hints, g: Grastate, v: int)
    requires !Known(r, g)
    ensures var value := EffectiveOf(r, h, g).value;
            && (value > 0 <==> exists w :: w > 0 && Hinted(h, g.pod, w))
            && (value > 0 ==> Hinted(h, g.pod, value)) && (Hinted(h, g.pod, v) && v > 0 ==> v <= value)
  {
    var hints := HintSources(h, g.pod);
    forall w | w > 0 ensures w in hints <==> Hinted(h, g.pod, w) {
      assert w in hints <==> w == hints[0] || w == hints[1] || w == hints[2];
    }
  }

  /** A log, or one of the operator's two records, hints at w. */
  predicate Hinted(h: Hints, pod: string, w: int) {
    || (pod in h.logSeqno && h.logSeqno[pod] == w)
    || (pod in h.crRecovered && h.crRecovered[pod] == w)
    || (pod in h.crState && h.crState[pod] == w)
  }

  predicate Reports(r: Readings, pod: string, status: string) {
    pod in r.wsrep && r.wsrep[pod].clusterStatus == status
  }

  /** The canonical UUID of some node; only if no node has one, a UUID some hint names. */
  ghost predicate Evident(r: Readings, h: Hints, u: UUID) {
    && u.Lineage?
    && if exists p :: p in Nodes(r) && CanonicalUUID(r, p).Lineage?
       then exists p :: p in Nodes(r) && CanonicalUUID(r, p) == u
       else u in h.logUUIDs || u in h.recoveryUUIDs
  }

  ghost predicate OneLineage(r: Readings, h: Hints) {
    forall u, v :: Evident(r, h, u) && Evident(r, h, v) ==> u == v
  }

  lemma AllEqualIff<T>(s: set<T>)
    ensures |s| <= 1 <==> forall x, y :: x in s && y in s ==> x == y
  {
    if |s| > 1 {
      var x :| x in s;
      assert |s - {x}| == |s| - 1;
      var y :| y in s - {x};
    } else {
      forall x, y | x in s && y in s ensures x == y { AtMostOne(s, x, y); }
    }
  }

  lemma OneLineageIff(r: Readings, h: Hints)
    ensures |UUIDs(r, h)| <= 1 <==> OneLineage(r, h)
  {
    AllEqualIff(UUIDs(r, h));
    forall p | p in Nodes(r) && CanonicalUUID(r, p).Lineage? ensures CanonicalUUID(r, p) in AuthoritativeUUIDs(r) {}
    if AuthoritativeUUIDs(r) != {} {
      var u :| u in AuthoritativeUUIDs(r);
      var p :| p in Nodes(r) && CanonicalUUID(r, p) == u;
      assert CanonicalUUID(r, p).Lineage?;
    }
    forall u ensures u in UUIDs(r, h) <==> Evident(r, h, u) {}
  }

  /** While anyone reports Primary, no Known node that does not is ahead of every one that does. */
  ghost predicate NobodyAhead(r: Readings, h: Hints) {
    (exists m :: Reports(r, m, "Primary")) ==>
      forall g :: g in r.grastates && Known(r, g) && !Reports(r, g.pod, "Primary") ==>
        exists m :: m in r.grastates && Reports(r, m.pod, "Primary") && Position(r, g) <= EffectiveOf(r, h, m).value
  }

  ghost predicate AgreesWithPrimary(r: Readings, pod: string) {
    exists m :: Reports(r, m, "Primary") && CanonicalUUID(r, m).Lineage? && CanonicalUUID(r, pod) == CanonicalUUID(r, m)
  }

  lemma NobodyAheadIff(r: Readings, h: Hints)
    ensures NobodyAhead(r, h) <==> !(HasPrimary(r) && exists g :: AheadOfPrimaries(r, h, g))
    ensures forall pod :: AgreesWithPrimary(r, pod) <==> OnQuorumLineage(r, pod)
  {
    assert forall pod :: Reports(r, pod, "Primary") <==> IsPrimaryMember(r, pod);
    if NobodyAhead(r, h) && HasPrimary(r) {
      var m :| IsPrimaryMember(r, m);
      assert Reports(r, m, "Primary");
    }
    forall g | g in r.grastates && Known(r, g) && !Reports(r, g.pod, "Primary") && !AheadOfPrimaries(r, h, g)
      ensures exists m ::
                m in r.grastates && Reports(r, m.pod, "Primary") && Position(r, g) <= EffectiveOf(r, h, m).value
    {
      var m :| m in r.grastates && IsPrimaryMember(r, m.pod) && Position(r, g) <= EffectiveOf(r, h, m).value;
      assert Reports(r, m.pod, "Primary");
    }
    forall pod ensures AgreesWithPrimary(r, pod) <==> OnQuorumLineage(r, pod) {
      if m :| Reports(r, m, "Primary") && CanonicalUUID(r, m).Lineage? && CanonicalUUID(r, pod) == CanonicalUUID(r, m) {
        assert IsPrimaryMember(r, m);
      }
      if m :| IsPrimaryMember(r, m) && ValidUUID(CanonicalUUID(r, m)) && CanonicalUUID(r, pod) == CanonicalUUID(r, m) {
        assert Reports(r, m, "Primary");
      }
    }
  }

  /** The verdict is Provable exactly when one lineage is seen, every status that is reported is
      Primary, nobody Known is ahead of all members of the primary component, and whoever is not
      Known is on its lineage. It is Diverged exactly when everybody is Known and one of the first
      three fails. */
  lemma VerdictIff(r: Readings, h: Hints)
    ensures Verdict(r, h) == Provable <==>
            && OneLineage(r, h) && NobodyAhead(r, h)
            && (forall pod :: pod in r.wsrep ==> Reports(r, pod, "") || Reports(r, pod, "Primary"))
            && (forall g :: g in r.grastates ==> Known(r, g) || AgreesWithPrimary(r, g.pod))
    ensures Verdict(r, h) == Diverged <==>
            && (forall g :: g in r.grastates ==> Known(r, g))
            && !(&& OneLineage(r, h) && NobodyAhead(r, h)
                 && forall pod :: pod in r.wsrep ==> Reports(r, pod, "") || Reports(r, pod, "Primary"))
  {
    OneLineageIff(r, h);
    NobodyAheadIff(r, h);
    assert OutsidePrimary(r) <==>
           !(forall pod :: pod in r.wsrep ==> Reports(r, pod, "") || Reports(r, pod, "Primary"));
    if g :| g in r.grastates && !Known(r, g) && (Divergent(r, h) || !OnQuorumLineage(r, g.pod)) {
      assert Blocks(r, h, g);
    }
  }

  predicate RecoverRead(r: Readings, pod: string) {
    pod in r.recovered && r.recovered[pod].valid
  }

  predicate StatusRead(r: Readings, pod: string) {
    pod in r.wsrep && r.wsrep[pod].stateUUID != NoUUID
  }

  /** The readings differ at most in UUIDs a better source hides: on disk where a recover or a live
      status was read, in the live status where a recover was. */
  ghost predicate AgreeOnBest(r: Readings, q: Readings) {
    && q.recovered == r.recovered && q.wsrep.Keys == r.wsrep.Keys && |q.grastates| == |r.grastates|
    && (forall p :: p in r.wsrep ==>
          && q.wsrep[p].lastCommitted == r.wsrep[p].lastCommitted
          && q.wsrep[p].clusterStatus == r.wsrep[p].clusterStatus
          && (RecoverRead(r, p) || q.wsrep[p].stateUUID == r.wsrep[p].stateUUID))
    && (forall i :: 0 <= i < |r.grastates| ==> SameOnDisk(r, r.grastates[i], q.grastates[i]))
  }

  predicate SameOnDisk(r: Readings, g: Grastate, f: Grastate) {
    && f.pod == g.pod && f.seqno == g.seqno
    && (RecoverRead(r, g.pod) || StatusRead(r, g.pod) || f.uuid == g.uuid)
  }

  lemma {:induction false} DiskUUIDKept(gs: seq<Grastate>, fs: seq<Grastate>, pod: string)
    requires |fs| == |gs|
    requires forall i :: 0 <= i < |gs| ==> fs[i].pod == gs[i].pod && (gs[i].pod == pod ==> fs[i].uuid == gs[i].uuid)
    ensures GrastateUUID(fs, pod) == GrastateUUID(gs, pod)
  {
    if gs != [] && gs[0].pod != pod { DiskUUIDKept(gs[1..], fs[1..], pod); }
  }

  lemma CanonicalKept(r: Readings, q: Readings, pod: string)
    requires AgreeOnBest(r, q)
    ensures CanonicalUUID(q, pod) == CanonicalUUID(r, pod)
  {
    if !RecoverRead(r, pod) && !StatusRead(r, pod) {
      forall i | 0 <= i < |r.grastates|
        ensures q.grastates[i].pod == r.grastates[i].pod
        ensures r.grastates[i].pod == pod ==> q.grastates[i].uuid == r.grastates[i].uuid
      {
        assert SameOnDisk(r, r.grastates[i], q.grastates[i]);
      }
      DiskUUIDKept(r.grastates, q.grastates, pod);
    }
  }

  /** The counterpart of a disk reading has the same position. */
  lemma Counterpart(r: Readings, q: Readings, h: Hints, f: Grastate) returns (g: Grastate)
    requires AgreeOnBest(r, q) && f in q.grastates
    ensures g in r.grastates && g.pod == f.pod && Position(q, f) == Position(r, g)
    ensures EffectiveOf(q, h, f) == EffectiveOf(r, h, g)
  {
    var i :| 0 <= i < |q.grastates| && q.grastates[i] == f;
    g := r.grastates[i];
    assert SameOnDisk(r, g, f);
    assert AuthoritativeSources(q, f) == AuthoritativeSources(r, g);
  }

  lemma AgreeIsSymmetric(r: Readings, q: Readings)
    requires AgreeOnBest(r, q)
    ensures AgreeOnBest(q, r)
  {
    forall i | 0 <= i < |r.grastates| ensures SameOnDisk(q, q.grastates[i], r.grastates[i]) {
      assert SameOnDisk(r, r.grastates[i], q.grastates[i]);
    }
  }

  lemma NodesWithin(r: Readings, q: Readings)
    requires AgreeOnBest(r, q)
    ensures Nodes(q) <= Nodes(r)
  {
    forall g | g in q.grastates ensures g.pod in Nodes(r) {
      var i :| 0 <= i < |q.grastates| && q.grastates[i] == g;
      assert SameOnDisk(r, r.grastates[i], g) && r.grastates[i] in r.grastates;
    }
  }

  lemma NodesKept(r: Readings, q: Readings)
    requires AgreeOnBest(r, q)
    ensures Nodes(q) == Nodes(r)
  {
    AgreeIsSymmetric(r, q);
    NodesWithin(r, q);
    NodesWithin(q, r);
  }

  lemma AheadKept(r: Readings, q: Readings, h: Hints)
    requires AgreeOnBest(r, q) && NobodyAhead(r, h)
    ensures NobodyAhead(q, h)
  {
    forall m ensures Reports(q, m, "Primary") <==> Reports(r, m, "Primary") {}
    if exists m :: Reports(q, m, "Primary") {
      forall f | f in q.grastates && Known(q, f) && !Reports(q, f.pod, "Primary")
        ensures exists m ::
                  m in q.grastates && Reports(q, m.pod, "Primary") && Position(q, f) <= EffectiveOf(q, h, m).value
      {
        var g := Counterpart(r, q, h, f);
        var m :| m in r.grastates && Reports(r, m.pod, "Primary") && Position(r, g) <= EffectiveOf(r, h, m).value;
        AgreeIsSymmetric(r, q);
        var n := Counterpart(q, r, h, m);
        assert Reports(q, n.pod, "Primary");
      }
    }
  }

  lemma PartsKept(r: Readings, q: Readings, h: Hints)
    requires AgreeOnBest(r, q)
    ensures OneLineage(r, h) ==> OneLineage(q, h)
    ensures forall pod :: AgreesWithPrimary(r, pod) ==> AgreesWithPrimary(q, pod)
  {
    NodesKept(r, q);
    forall p ensures CanonicalUUID(q, p) == CanonicalUUID(r, p) { CanonicalKept(r, q, p); }
    forall u ensures Evident(q, h, u) <==> Evident(r, h, u) {}
    forall pod | AgreesWithPrimary(r, pod) ensures AgreesWithPrimary(q, pod) {
      var m :| Reports(r, m, "Primary") && CanonicalUUID(r, m).Lineage? &&
        CanonicalUUID(r, pod) == CanonicalUUID(r, m);
      assert Reports(q, m, "Primary");
    }
  }

  lemma ProvableKept(r: Readings, q: Readings, h: Hints)
    requires AgreeOnBest(r, q) && Verdict(r, h) == Provable
    ensures Verdict(q, h) == Provable
  {
    VerdictIff(r, h);
    VerdictIff(q, h);
    PartsKept(r, q, h);
    AheadKept(r, q, h);
    forall pod | pod in q.wsrep ensures Reports(q, pod, "") || Reports(q, pod, "Primary") {
      assert Reports(r, pod, "") || Reports(r, pod, "Primary");
    }
    forall f | f in q.grastates ensures Known(q, f) || AgreesWithPrimary(q, f.pod) {
      var g := Counterpart(r, q, h, f);
    }
  }

  lemma AllKnownKept(r: Readings, q: Readings, h: Hints)
    requires AgreeOnBest(r, q) && forall g :: g in r.grastates ==> Known(r, g)
    ensures forall f :: f in q.grastates ==> Known(q, f)
  {
    forall f | f in q.grastates ensures Known(q, f) {
      var g := Counterpart(r, q, h, f);
    }
  }

  /** A stale UUID never sways the verdict where a better source was read. */
  lemma StaleUUIDsAreIgnored(r: Readings, q: Readings, h: Hints)
    requires AgreeOnBest(r, q)
    ensures Verdict(q, h) == Verdict(r, h)
  {
    AgreeIsSymmetric(r, q);
    VerdictIff(r, h);
    VerdictIff(q, h);
    if Verdict(r, h) == Provable { ProvableKept(r, q, h); }
    if Verdict(q, h) == Provable { ProvableKept(q, r, h); }
    if Verdict(r, h) == Diverged { AllKnownKept(r, q, h); }
    if Verdict(q, h) == Diverged { AllKnownKept(q, r, h); }
  }

  /** Two nodes of one lineage at one position, one of which has lost the primary component. */
  lemma LostComponentDiverges(r: Readings, h: Hints, id: string, seqno: int)
    requires seqno > 0
    requires r == Readings([Grastate("db-0", Lineage(id), seqno), Grastate("db-1", Lineage(id), seqno)],
                           map["db-0" := WsrepStatus(seqno, "Primary", Lineage(id)),
                               "db-1" := WsrepStatus(seqno, "non-Primary", Lineage(id))], map[])
    ensures Verdict(r, h) == Diverged
  {
    VerdictIff(r, h);
    assert "db-1" in r.wsrep && !Reports(r, "db-1", "") && !Reports(r, "db-1", "Primary");
    forall g | g in r.grastates ensures Known(r, g) {
      PositionIsLargest(r, g);
      assert Reading(r, g, seqno);
    }
  }

  // ----- what a provable verdict means -----

  /** Provable: one lineage, nobody Known is ahead of all primary members, and whoever could
      not be read is on the live quorum's lineage. */
  lemma ProvableMeans(r: Readings, h: Hints, p: string, q: string)
    requires Verdict(r, h) == Provable
    ensures p in Nodes(r) && q in Nodes(r) && ValidUUID(CanonicalUUID(r, p)) && ValidUUID(CanonicalUUID(r, q)) ==>
              CanonicalUUID(r, p) == CanonicalUUID(r, q)
    ensures forall g :: g in r.grastates && !Known(r, g) ==> OnQuorumLineage(r, g.pod)
    ensures HasPrimary(r) ==> forall g :: !AheadOfPrimaries(r, h, g)
  {
    if p in Nodes(r) && q in Nodes(r) && ValidUUID(CanonicalUUID(r, p)) && ValidUUID(CanonicalUUID(r, q)) {
      assert CanonicalUUID(r, p) in AuthoritativeUUIDs(r) && CanonicalUUID(r, q) in AuthoritativeUUIDs(r);
      AtMostOne(UUIDs(r, h), CanonicalUUID(r, p), CanonicalUUID(r, q));
    }
    forall g | g in r.grastates && !Known(r, g) ensures OnQuorumLineage(r, g.pod) {
      assert !Blocks(r, h, g);
    }
  }

  // ----- hints -----

  const NO_HINTS: Hints := Hints(map[], map[], map[], {}, {})

  /** Some primary member's own position could not be read. */
  predicate BlindPrimary(r: Readings) {
    exists g :: g in r.grastates && IsPrimaryMember(r, g.pod) && !Known(r, g)
  }

  /** The one situation in which a hint decides: a primary member is unread, a Known node is
      ahead of every Known member, and nothing else speaks against the quorum. */
  ghost predicate HintSensitive(r: Readings) {
    && BlindPrimary(r)
    && (exists g :: AheadOfPrimaries(r, NO_HINTS, g))
    && |AuthoritativeUUIDs(r)| <= 1 && !OutsidePrimary(r)
    && forall g :: g in r.grastates && !Known(r, g) ==> OnQuorumLineage(r, g.pod)
  }

  lemma AheadWithoutBlindMembers(r: Readings, h: Hints, g: Grastate)
    requires !BlindPrimary(r)
    ensures AheadOfPrimaries(r, h, g) <==> AheadOfPrimaries(r, NO_HINTS, g)
  {
    forall m | m in r.grastates && IsPrimaryMember(r, m.pod) ensures Known(r, m) {}
  }

  lemma NoHintsIsMostAhead(r: Readings, h: Hints, g: Grastate)
    requires AheadOfPrimaries(r, h, g)
    ensures AheadOfPrimaries(r, NO_HINTS, g)
  {
    forall m | m in r.grastates && IsPrimaryMember(r, m.pod)
      ensures EffectiveOf(r, NO_HINTS, m).value < Position(r, g)
    {
      if !Known(r, m) { assert EffectiveOf(r, NO_HINTS, m).value == -1; }
    }
  }

  lemma VerdictFromDivergence(r: Readings, h: Hints)
    requires BlindPrimary(r)
    ensures Divergent(r, h) ==> Verdict(r, h) == Undeterminable
    ensures !Divergent(r, h) ==>
              Verdict(r, h) == if forall g :: g in r.grastates && !Known(r, g) ==> OnQuorumLineage(r, g.pod)
                               then Provable else Undeterminable
  {
    var m :| m in r.grastates && IsPrimaryMember(r, m.pod) && !Known(r, m);
    if Divergent(r, h) {
      assert Blocks(r, h, m);
    } else if g :| g in r.grastates && !Known(r, g) && !OnQuorumLineage(r, g.pod) {
      assert Blocks(r, h, g);
    }
  }

  /** Hints never drive the verdict: with some authoritative UUID, two states that differ only
      in hints get the same verdict, unless the readings are hint-sensitive. The most advanced
      node never depends on hints at all (it is a function of the readings). */
  lemma HintsNeverDrive(r: Readings, h1: Hints, h2: Hints)
    requires AuthoritativeUUIDs(r) != {} && !HintSensitive(r)
    ensures Verdict(r, h1) == Verdict(r, h2)
  {
    if BlindPrimary(r) {
      VerdictFromDivergence(r, h1);
      VerdictFromDivergence(r, h2);
      if Divergent(r, h1) != Divergent(r, h2) {
        var h := if Divergent(r, h1) then h1 else h2;
        var g :| AheadOfPrimaries(r, h, g);
        NoHintsIsMostAhead(r, h, g);
      }
    } else {
      forall g ensures AheadOfPrimaries(r, h1, g) <==> AheadOfPrimaries(r, h2, g) {
        AheadWithoutBlindMembers(r, h1, g);
        AheadWithoutBlindMembers(r, h2, g);
      }
      assert Divergent(r, h1) == Divergent(r, h2);
      assert forall g :: Blocks(r, h1, g) == Blocks(r, h2, g);
    }
  }

  /** In particular when every primary member's position is Known. */
  lemma HintsNeverDriveWithKnownPrimaries(r: Readings, h1: Hints, h2: Hints)
    requires AuthoritativeUUIDs(r) != {}
    requires forall g :: g in r.grastates && IsPrimaryMember(r, g.pod) ==> Known(r, g)
    ensures Verdict(r, h1) == Verdict(r, h2)
  {
    HintsNeverDrive(r, h1, h2);
  }

  /** An operator snapshot that claims one more than anything read. */
  function LoudHints(r: Readings): Hints {
    NO_HINTS.(crRecovered := map g | g in r.grastates :: g.pod := 1 + Loudest(r, |r.grastates|))
  }

  function Loudest(r: Readings, n: nat): (m: int)
    requires n <= |r.grastates|
    ensures m >= 0 && forall i :: 0 <= i < n ==> Position(r, r.grastates[i]) <= m
  {
    if n == 0 then 0
    else if Position(r, r.grastates[n - 1]) > Loudest(r, n - 1) then Position(r, r.grastates[n - 1])
    else Loudest(r, n - 1)
  }

  lemma LoudHintsSilenceEveryone(r: Readings, m: Grastate, g: Grastate)
    requires m in r.grastates && IsPrimaryMember(r, m.pod) && !Known(r, m)
    ensures !AheadOfPrimaries(r, LoudHints(r), g)
  {
    if g in r.grastates {
      var h, loud := LoudHints(r), 1 + Loudest(r, |r.grastates|);
      assert m.pod in h.crRecovered && h.crRecovered[m.pod] == loud;
      assert HintSources(h, m.pod)[1] == loud;
      assert loud in HintSources(h, m.pod) && loud > 0;
      assert EffectiveOf(r, h, m).value >= loud;
      var i :| 0 <= i < |r.grastates| && r.grastates[i] == g;
      assert Position(r, r.grastates[i]) <= loud - 1;
    }
  }

  /** The condition is exact: in a hint-sensitive state the verdict without hints is a refusal,
      and a loud operator snapshot turns it into a proof. */
  lemma HintsDriveWhenSensitive(r: Readings)
    requires AuthoritativeUUIDs(r) != {} && HintSensitive(r)
    ensures Verdict(r, NO_HINTS) == Undeterminable && Verdict(r, LoudHints(r)) == Provable
  {
    VerdictFromDivergence(r, NO_HINTS);
    VerdictFromDivergence(r, LoudHints(r));
    var m :| m in r.grastates && IsPrimaryMember(r, m.pod) && !Known(r, m);
    assert IsPrimaryMember(r, m.pod) && HasPrimary(r);
    SensitiveDiverges(r, m);
  }

  lemma SensitiveDiverges(r: Readings, m: Grastate)
    requires AuthoritativeUUIDs(r) != {} && HintSensitive(r)
    requires m in r.grastates && IsPrimaryMember(r, m.pod) && !Known(r, m) && HasPrimary(r)
    ensures Divergent(r, NO_HINTS) && !Divergent(r, LoudHints(r))
  {
    forall g ensures !AheadOfPrimaries(r, LoudHints(r), g) {
      LoudHintsSilenceEveryone(r, m, g);
    }
  }

  /** Hint-sensitive states exist: a running member whose status cannot be read, beside a
      stopped node of the same lineage with a clean position. */
  lemma SensitiveStateExists(r: Readings)
    requires r == Readings([Grastate("db-0", Lineage("a"), -1), Grastate("db-1", Lineage("a"), 100)],
                           map["db-0" := WsrepStatus(-1, "Primary", Lineage("a"))], map[])
    ensures AuthoritativeUUIDs(r) != {} && HintSensitive(r)
  {
    var a, b := r.grastates[0], r.grastates[1];
    assert a in r.grastates && b in r.grastates;
    assert Nodes(r) == {"db-0", "db-1"};
    assert CanonicalUUID(r, "db-0") == Lineage("a");
    assert r.grastates[1..][0] == b;
    assert CanonicalUUID(r, "db-1") == Lineage("a");
    assert AuthoritativeUUIDs(r) == {Lineage("a")};
    assert AuthoritativeSources(r, a) == [-1, -1, -1] && AuthoritativeSources(r, b) == [-1, -1, 100];
    assert 100 in AuthoritativeSources(r, b);
    assert forall g :: g in r.grastates ==> g == a || g == b;
    assert AheadOfPrimaries(r, NO_HINTS, b);
    assert IsPrimaryMember(r, "db-0");
  }
}
