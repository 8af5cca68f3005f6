// The append-only witness: one business table's ordered position column, compared by the
// hash of everything up to the peer's last position.
module Witness {
  import opened Options
  import opened Lineage
  import opened Authority

  /** md5 of the comma-joined ordered positions. */
  type Digest = seq<int> -> string

  ghost predicate CollisionFree(digest: Digest) {
    forall s, t :: digest(s) == digest(t) ==> s == t
  }

  /** One instance's fingerprint, and its cut: (count, hash) of its rows up to a position, if
      that can be answered. */
  datatype WitnessBase = WitnessBase(ok: bool, count: int, maxPos: int, hash: string, cut: int -> Option<(int, string)>)

  const Unreadable: WitnessBase := WitnessBase(false, 0, 0, "", p => None)

  predicate ContainsPeer(host: WitnessBase, peer: WitnessBase) {
    match host.cut(peer.maxPos)
    case Some((c, h)) => c == peer.count && h == peer.hash
    case None => false
  }

  function DecideContent(appendOnly: bool, a: WitnessBase, b: WitnessBase): ContentRelation {
    if !a.ok || !b.ok || !appendOnly then Unknown
    else if a.count == 0 && b.count == 0 then SameContent
    else if b.count == 0 then AContainsB
    else if a.count == 0 then BContainsA
    else if ContainsPeer(a, b) && ContainsPeer(b, a) then SameContent
    else if ContainsPeer(a, b) then AContainsB
    else if ContainsPeer(b, a) then BContainsA
    else Crossed
  }

  // ----- what the fingerprints mean -----

  predicate Ascending(rows: seq<int>) {
    forall i, j :: 0 <= i < j < |rows| ==> rows[i] <= rows[j]
  }

  predicate StrictlyAscending(rows: seq<int>) {
    forall i, j :: 0 <= i < j < |rows| ==> rows[i] < rows[j]
  }

  /** The rows a cut query sees. */
  function UpTo(rows: seq<int>, p: int): seq<int> {
    if rows == [] then []
    else UpTo(rows[..|rows| - 1], p) + if rows[|rows| - 1] <= p then [rows[|rows| - 1]] else []
  }

  function CutOf(rows: seq<int>, digest: Digest, p: int): (int, string) {
    (|UpTo(rows, p)|, digest(UpTo(rows, p)))
  }

  /** The base tells the truth about rows wherever it answers; it may refuse a cut. */
  ghost predicate Faithful(base: WitnessBase, rows: seq<int>, digest: Digest) {
    base.ok ==>
      && base.count == |rows| && base.hash == digest(rows)
      && (rows != [] ==> base.maxPos == rows[|rows| - 1])
      && forall p :: base.cut(p).Some? ==> base.cut(p).value == CutOf(rows, digest, p)
  }

  ghost predicate AnswersEveryCut(base: WitnessBase) {
    base.ok && forall p :: base.cut(p).Some?
  }

  lemma UpToSnoc(init: seq<int>, last: int, p: int)
    ensures UpTo(init + [last], p) == UpTo(init, p) + if last <= p then [last] else []
  {
    assert (init + [last])[..|init|] == init;
  }

  lemma AscendingSnoc(init: seq<int>, last: int)
    requires Ascending(init + [last])
    ensures Ascending(init) && (init != [] ==> init[|init| - 1] <= last)
  {
    var rows := init + [last];
    assert forall i :: 0 <= i < |init| ==> init[i] == rows[i];
    assert rows[|init|] == last;
  }

  /** The cut keeps a beginning of the rows, and all of them if the last one is in it. */
  ghost predicate CutsPrefix(rows: seq<int>, p: int) {
    UpTo(rows, p) <= rows && (rows != [] && rows[|rows| - 1] <= p ==> UpTo(rows, p) == rows)
  }

  lemma CutsPrefixSnoc(init: seq<int>, last: int, p: int)
    requires CutsPrefix(init, p) && (init != [] ==> init[|init| - 1] <= last)
    ensures CutsPrefix(init + [last], p)
  {
    UpToSnoc(init, last, p);
    if last <= p {
      assert UpTo(init, p) == init;
    }
  }

  lemma {:induction false} CutIsPrefix(rows: seq<int>, p: int)
    requires Ascending(rows)
    ensures CutsPrefix(rows, p)
  {
    if rows != [] {
      var init, last := rows[..|rows| - 1], rows[|rows| - 1];
      assert rows == init + [last];
      AscendingSnoc(init, last);
      CutIsPrefix(init, p);
      CutsPrefixSnoc(init, last, p);
    }
  }

  lemma {:induction false} CutAtOwnRow(rows: seq<int>, n: nat)
    requires StrictlyAscending(rows) && 0 < n <= |rows|
    ensures UpTo(rows, rows[n - 1]) == rows[..n]
    decreases |rows|
  {
    if n == |rows| {
      CutIsPrefix(rows, rows[n - 1]);
    } else {
      CutAtOwnRow(rows[..|rows| - 1], n);
      assert rows[..|rows| - 1][..n] == rows[..n];
    }
  }

  lemma PeerIsPrefix(a: WitnessBase, b: WitnessBase, ra: seq<int>, rb: seq<int>, digest: Digest)
    requires CollisionFree(digest) && Ascending(ra) && a.ok && b.ok
    requires Faithful(a, ra, digest) && Faithful(b, rb, digest) && ContainsPeer(a, b)
    ensures rb <= ra
  {
    CutIsPrefix(ra, b.maxPos);
    assert digest(UpTo(ra, b.maxPos)) == digest(rb);
  }

  /** Soundness, however few cuts are answered: containment means the loser's position
      sequence is a prefix of the winner's, equality means identical sequences. */
  lemma VerdictIsSound(appendOnly: bool, a: WitnessBase, b: WitnessBase, ra: seq<int>, rb: seq<int>, digest: Digest)
    requires CollisionFree(digest) && Ascending(ra) && Ascending(rb)
    requires Faithful(a, ra, digest) && Faithful(b, rb, digest)
    ensures match DecideContent(appendOnly, a, b)
            case AContainsB => rb <= ra
            case BContainsA => ra <= rb
            case SameContent => ra == rb
            case _ => true
  {
    if a.ok && b.ok {
      if ContainsPeer(a, b) { PeerIsPrefix(a, b, ra, rb, digest); }
      if ContainsPeer(b, a) { PeerIsPrefix(b, a, rb, ra, digest); }
    }
  }

  lemma PrefixIsFound(a: WitnessBase, b: WitnessBase, ra: seq<int>, rb: seq<int>, digest: Digest)
    requires StrictlyAscending(ra) && AnswersEveryCut(a) && b.ok && rb != []
    requires Faithful(a, ra, digest) && Faithful(b, rb, digest) && rb <= ra
    ensures ContainsPeer(a, b)
  {
    assert ra[..|rb|] == rb && ra[|rb| - 1] == rb[|rb| - 1];
    CutAtOwnRow(ra, |rb|);
    assert a.cut(b.maxPos).Some?;
  }

  /** Exactness when every cut is answered: the verdict decides the prefix order. */
  lemma VerdictIsExact(a: WitnessBase, b: WitnessBase, ra: seq<int>, rb: seq<int>, digest: Digest)
    requires CollisionFree(digest) && StrictlyAscending(ra) && StrictlyAscending(rb)
    requires Faithful(a, ra, digest) && Faithful(b, rb, digest) && AnswersEveryCut(a) && AnswersEveryCut(b)
    ensures DecideContent(true, a, b) ==
            if ra == rb then SameContent else if rb <= ra then AContainsB else if ra <= rb then BContainsA else Crossed
  {
    VerdictIsSound(true, a, b, ra, rb, digest);
    if rb != [] && rb <= ra { PrefixIsFound(a, b, ra, rb, digest); }
    if ra != [] && ra <= rb { PrefixIsFound(b, a, rb, ra, digest); }
    assert rb <= ra && ra <= rb ==> ra == rb;
  }

  lemma VerdictFlips(appendOnly: bool, a: WitnessBase, b: WitnessBase)
    ensures DecideContent(appendOnly, b, a) == FlipContent(DecideContent(appendOnly, a, b))
  {}

  // ----- a down instance: cuts precomputed for the live peers -----

  /** The one-shot read of a down instance: its fingerprint, then a table of cuts for the live
      peers' maxima, some of which may fail. */
  method DeepContentBase(rows: seq<int>, digest: Digest, started: bool, fingerprinted: bool,
                         peerMaxes: seq<int>, cutSucceeds: nat -> bool) returns (base: WitnessBase)
    ensures Faithful(base, rows, digest)
    ensures base.ok <==> started && fingerprinted
    ensures base.ok ==> forall p :: base.cut(p).Some? <==>
              exists i :: 0 <= i < |peerMaxes| && peerMaxes[i] == p && cutSucceeds(i)
  {
    if !started || !fingerprinted { return Unreadable; }
    var cuts: map<int, (int, string)> := map[];
    for i := 0 to |peerMaxes|
      invariant forall p :: p in cuts <==> exists k :: 0 <= k < i && peerMaxes[k] == p && cutSucceeds(k)
      invariant forall p :: p in cuts ==> cuts[p] == CutOf(rows, digest, p)
    {
      if cutSucceeds(i) {
        cuts := cuts[peerMaxes[i] := CutOf(rows, digest, peerMaxes[i])];
      }
    }
    base := WitnessBase(true, |rows|, if rows == [] then 0 else rows[|rows| - 1], digest(rows),
                        p => if p in cuts then Some(cuts[p]) else None);
  }

  /** A partial table in place of on-demand cuts only ever weakens the verdict: a containment
      it reports is one the full cuts report too, or they report equality. */
  lemma PartialCutsOnlyWeaken(a: WitnessBase, b: WitnessBase, partial: WitnessBase, rb: seq<int>, digest: Digest)
    requires b.ok && Faithful(b, rb, digest) && AnswersEveryCut(b)
    requires partial.ok && Faithful(partial, rb, digest)
    ensures match DecideContent(true, a, partial)
            case SameContent => DecideContent(true, a, b) == SameContent
            case AContainsB => DecideContent(true, a, b) == AContainsB || DecideContent(true, a, b) == SameContent
            case BContainsA => DecideContent(true, a, b) == BContainsA
            case Crossed => DecideContent(true, a, b) == Crossed || DecideContent(true, a, b) == BContainsA
            case Unknown => DecideContent(true, a, b) == Unknown
  {
    if a.ok {
      assert b.cut(a.maxPos).Some?;
      if rb == [] {
        assert partial.count == 0 && b.count == 0;
      } else {
        assert partial.maxPos == b.maxPos && partial.count == b.count && partial.hash == b.hash;
      }
    }
  }

  // ----- collected once, on the first divergence -----

  class LazyContentComparator {
    const appendOnly: bool
    const collect: () -> map<string, WitnessBase>
    var bases: Option<map<string, WitnessBase>>
    var collections: nat

    constructor (appendOnly: bool, collect: () -> map<string, WitnessBase>)
      ensures Valid() && this.appendOnly == appendOnly && this.collect == collect && collections == 0
    {
      this.appendOnly, this.collect := appendOnly, collect;
      bases, collections := None, 0;
    }

    ghost predicate Valid()
      reads this
    {
      && (bases.Some? <==> collections > 0) && collections <= 1
      && (bases.Some? ==> bases.value == collect())
    }

    method Compare(a: Instance, b: Instance) returns (r: ContentRelation)
      requires Valid()
      modifies this
      ensures Valid() && collections == 1
      ensures r == WitnessComparator(appendOnly, collect())(a, b)
    {
      if bases.None? {
        bases := Some(collect());
        collections := collections + 1;
      }
      r := DecideContent(appendOnly, BaseFor(bases.value, a.pod), BaseFor(bases.value, b.pod));
    }
  }

  function BaseFor(bases: map<string, WitnessBase>, pod: string): WitnessBase {
    if pod in bases then bases[pod] else Unreadable
  }

  function WitnessComparator(appendOnly: bool, bases: map<string, WitnessBase>): Comparator {
    (a: Instance, b: Instance) => DecideContent(appendOnly, BaseFor(bases, a.pod), BaseFor(bases, b.pod))
  }

  /** Row containment by position sequence. */
  function PrefixExtent(rows: string -> seq<int>): Extent {
    (x: Instance, y: Instance) => rows(x.pod) <= rows(y.pod)
  }

  /** On any collected instances the witness is sound and flips with its arguments; with every
      cut answered it also reports equal content as equal. For an append-only table filled
      through the WAL, position prefixes are an extent. */
  lemma WitnessIsFaithful(insts: seq<Instance>, appendOnly: bool, bases: map<string, WitnessBase>,
                          rows: string -> seq<int>, digest: Digest)
    requires CollisionFree(digest)
    requires forall p :: Ascending(rows(p)) && Faithful(BaseFor(bases, p), rows(p), digest)
    ensures Sound(Some(WitnessComparator(appendOnly, bases)), PrefixExtent(rows), insts)
    ensures Symmetric(Some(WitnessComparator(appendOnly, bases)))
    ensures WALBringsRows(insts, PrefixExtent(rows)) ==> IsExtent(PrefixExtent(rows), insts)
    ensures FullyCut(bases, rows) ==> Strict(Some(WitnessComparator(appendOnly, bases)), PrefixExtent(rows), insts)
  {
    forall a, b
      ensures WitnessComparator(appendOnly, bases)(a, b) == AContainsB ==> PrefixExtent(rows)(b, a)
      ensures WitnessComparator(appendOnly, bases)(a, b) == BContainsA ==> PrefixExtent(rows)(a, b)
      ensures WitnessComparator(appendOnly, bases)(a, b) == SameContent ==>
                PrefixExtent(rows)(a, b) && PrefixExtent(rows)(b, a)
    {
      VerdictIsSound(appendOnly, BaseFor(bases, a.pod), BaseFor(bases, b.pod), rows(a.pod), rows(b.pod), digest);
    }
    if FullyCut(bases, rows) { WitnessIsStrict(insts, appendOnly, bases, rows, digest); }
  }

  lemma WitnessIsStrict(insts: seq<Instance>, appendOnly: bool, bases: map<string, WitnessBase>,
                        rows: string -> seq<int>, digest: Digest)
    requires CollisionFree(digest) && FullyCut(bases, rows)
    requires forall p :: Faithful(BaseFor(bases, p), rows(p), digest)
    ensures Strict(Some(WitnessComparator(appendOnly, bases)), PrefixExtent(rows), insts)
  {
    forall a, b
      ensures WitnessComparator(appendOnly, bases)(a, b) == AContainsB ==> !PrefixExtent(rows)(a, b)
      ensures WitnessComparator(appendOnly, bases)(a, b) == BContainsA ==> !PrefixExtent(rows)(b, a)
    {
      OneSidedIsStrict(appendOnly, BaseFor(bases, a.pod), BaseFor(bases, b.pod), rows(a.pod), rows(b.pod), digest);
    }
  }

  /** Positions never repeat, and every readable instance answers every cut. */
  ghost predicate FullyCut(bases: map<string, WitnessBase>, rows: string -> seq<int>) {
    forall p :: StrictlyAscending(rows(p)) && (BaseFor(bases, p).ok ==> AnswersEveryCut(BaseFor(bases, p)))
  }

  lemma OneSidedIsStrict(appendOnly: bool, a: WitnessBase, b: WitnessBase, ra: seq<int>, rb: seq<int>, digest: Digest)
    requires CollisionFree(digest) && StrictlyAscending(ra) && StrictlyAscending(rb)
    requires Faithful(a, ra, digest) && Faithful(b, rb, digest)
    requires (a.ok ==> AnswersEveryCut(a)) && (b.ok ==> AnswersEveryCut(b))
    ensures DecideContent(appendOnly, a, b) == AContainsB ==> !(ra <= rb)
    ensures DecideContent(appendOnly, a, b) == BContainsA ==> !(rb <= ra)
  {
    if a.ok && b.ok && appendOnly {
      VerdictIsExact(a, b, ra, rb, digest);
      assert ra <= rb && rb <= ra ==> ra == rb;
    }
  }

  /** With every cut answered, a divergence in WAL stands exactly when the table is not declared
      append-only, one side has no fingerprint, or neither row sequence is a prefix of the other. */
  lemma DivergenceStandsIff(a: Instance, b: Instance, appendOnly: bool, bases: map<string, WitnessBase>,
                            rows: string -> seq<int>, digest: Digest)
    requires CollisionFree(digest) && FullyCut(bases, rows)
    requires forall p :: Faithful(BaseFor(bases, p), rows(p), digest)
    requires Relate(a, b).0 == Diverge
    ensures Resolve(a, b, Some(WitnessComparator(appendOnly, bases))) == Diverge <==>
            || !appendOnly || !BaseFor(bases, a.pod).ok || !BaseFor(bases, b.pod).ok
            || (!(rows(a.pod) <= rows(b.pod)) && !(rows(b.pod) <= rows(a.pod)))
  {
    if appendOnly && BaseFor(bases, a.pod).ok && BaseFor(bases, b.pod).ok {
      VerdictIsExact(BaseFor(bases, a.pod), BaseFor(bases, b.pod), rows(a.pod), rows(b.pod), digest);
    }
  }
}
