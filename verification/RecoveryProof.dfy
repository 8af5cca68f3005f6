// The proof a destructive clear is bound to: a digest of the triage state behind the
// decision, the authority, and the disposable set.
module RecoveryProof {
  import opened Options
  import opened Text
  import opened Numbers
  import opened Comparison

  /** The part of a triage result the digest covers. */
  datatype Snapshot = Snapshot(recovery: Option<Recovery>, authorityStatus: string, assessments: seq<Assessment>)

  datatype Proof = Proof(
    assessmentHash: string,
    authority: string,
    disposable: seq<string>,
    escrowVerified: bool)

  // ----- sorting copies -----

  predicate NotAfter<T>(key: T -> string, x: T, y: T) {
    !LexLess(key(y), key(x))
  }

  function InsertBy<T>(key: T -> string, x: T, s: seq<T>): (r: seq<T>)
    ensures multiset(r) == multiset(s) + multiset{x}
  {
    if s == [] then [x]
    else if NotAfter(key, x, s[0]) then [x] + s
    else
      assert s == [s[0]] + s[1..];
      [s[0]] + InsertBy(key, x, s[1..])
  }

  /** sort.Slice and sort.Strings on a copy. */
  function SortBy<T>(key: T -> string, s: seq<T>): (r: seq<T>)
    ensures multiset(r) == multiset(s)
  {
    if s == [] then []
    else
      assert s == [s[0]] + s[1..];
      InsertBy(key, s[0], SortBy(key, s[1..]))
  }

  ghost predicate SortedBy<T>(key: T -> string, s: seq<T>) {
    forall i, j :: 0 <= i < j < |s| ==> NotAfter(key, s[i], s[j])
  }

  /** Elements with the same key are the same element. */
  ghost predicate KeyIdentifies<T>(key: T -> string, s: seq<T>) {
    forall x, y :: x in s && y in s && key(x) == key(y) ==> x == y
  }

  lemma NotAfterTransitive<T>(key: T -> string, x: T, y: T, z: T)
    requires NotAfter(key, x, y) && NotAfter(key, y, z)
    ensures NotAfter(key, x, z)
  {
    LexTrichotomy(key(x), key(y));
    LexTrichotomy(key(y), key(z));
    LexTrichotomy(key(x), key(z));
    if LexLess(key(x), key(y)) && LexLess(key(y), key(z)) { LexTransitive(key(x), key(y), key(z)); }
  }

  lemma {:induction false} InsertSorted<T>(key: T -> string, x: T, s: seq<T>)
    requires SortedBy(key, s)
    ensures SortedBy(key, InsertBy(key, x, s))
  {
    if s != [] {
      if NotAfter(key, x, s[0]) {
        forall j | 0 <= j < |s| ensures NotAfter(key, x, s[j]) {
          if j > 0 { NotAfterTransitive(key, x, s[0], s[j]); }
        }
      } else {
        InsertSorted(key, x, s[1..]);
        LexTrichotomy(key(x), key(s[0]));
        var rest := InsertBy(key, x, s[1..]);
        forall j | 0 <= j < |rest| ensures NotAfter(key, s[0], rest[j]) {
          assert rest[j] in multiset(rest);
          assert rest[j] == x || rest[j] in s[1..];
        }
      }
    }
  }

  lemma {:induction false} SortSorts<T>(key: T -> string, s: seq<T>)
    ensures SortedBy(key, SortBy(key, s))
  {
    if s != [] {
      SortSorts(key, s[1..]);
      InsertSorted(key, s[0], SortBy(key, s[1..]));
    }
  }

  lemma TailMultiset<T>(a: seq<T>)
    requires a != []
    ensures multiset(a[1..]) == multiset(a) - multiset{a[0]} && a == [a[0]] + a[1..]
  {
    assert a == [a[0]] + a[1..];
  }

  /** Two sorted lists of the same elements start with the same one. */
  lemma SortedStart<T>(key: T -> string, a: seq<T>, b: seq<T>)
    requires SortedBy(key, a) && SortedBy(key, b) && multiset(a) == multiset(b) && KeyIdentifies(key, a) && a != [] &&
             b != []
    ensures a[0] == b[0]
  {
    assert a[0] in multiset(b) && b[0] in multiset(a);
    var i :| 0 <= i < |b| && b[i] == a[0];
    var j :| 0 <= j < |a| && a[j] == b[0];
    LexTrichotomy(key(a[0]), key(b[0]));
    assert i == 0 || NotAfter(key, b[0], b[i]);
    assert j == 0 || NotAfter(key, a[0], a[j]);
    assert a[0] in a && a[j] in a;
  }

  lemma {:induction false} SortedIsUnique<T>(key: T -> string, a: seq<T>, b: seq<T>)
    requires SortedBy(key, a) && SortedBy(key, b) && multiset(a) == multiset(b) && KeyIdentifies(key, a)
    ensures a == b
  {
    assert |multiset(a)| == |a| && |multiset(b)| == |b|;
    if a != [] {
      SortedStart(key, a, b);
      TailMultiset(a);
      TailMultiset(b);
      TailIdentifies(key, a);
      SortedIsUnique(key, a[1..], b[1..]);
    }
  }

  lemma TailIdentifies<T>(key: T -> string, a: seq<T>)
    requires KeyIdentifies(key, a) && a != []
    ensures KeyIdentifies(key, a[1..])
  {}

  /** Sorting forgets the order of the input. */
  lemma SortForgetsOrder<T>(key: T -> string, p: seq<T>, q: seq<T>)
    requires multiset(p) == multiset(q) && KeyIdentifies(key, p)
    ensures SortBy(key, p) == SortBy(key, q)
  {
    SortSorts(key, p);
    SortSorts(key, q);
    forall x | x in SortBy(key, p) ensures x in p { assert x in multiset(SortBy(key, p)); }
    SortedIsUnique(key, SortBy(key, p), SortBy(key, q));
  }

  // ----- the digest input -----

  function PodOf(): Assessment -> string {
    (a: Assessment) => a.pod
  }

  function Itself(): string -> string {
    (s: string) => s
  }

  function ReasonText(r: RecoveryReason): string {
    match r
    case NoReason => ""
    case AmbiguousAuthority => "ambiguous_authority"
    case DiskFullDisposableReplica => "disk_full_disposable_replica"
  }

  function ClassText(c: Classification): string {
    match c
    case ClassUnknown => "unknown"
    case ClassAuthoritative => "authoritative"
    case ClassDisposable => "disposable"
    case ClassRecoverable => "recoverable"
  }

  function BoolText(b: bool): string {
    if b then "true" else "false"
  }

  /** A line is its fields, later joined by '|'. */
  type Line = seq<string>

  /** writeSortedLines' output for an already sorted list. */
  function Tagged(tag: string, vals: seq<string>): seq<Line> {
    seq(|vals|, i requires 0 <= i < |vals| => [tag, vals[i]])
  }

  /** What the digest sees of one instance. */
  datatype Standing = Standing(pod: string, classification: Classification, timeline: int, lsn: string, isPrimary: bool)

  function StandingOf(a: Assessment): Standing {
    Standing(a.pod, a.classification, a.timeline, a.lsn, a.isPrimary)
  }

  function Standings(insts: seq<Assessment>): seq<Standing> {
    seq(|insts|, i requires 0 <= i < |insts| => StandingOf(insts[i]))
  }

  function InstanceLine(a: Standing): Line {
    ["inst", a.pod, "class=" + ClassText(a.classification), "tl=" + PrintInt(a.timeline), "lsn=" + a.lsn,
     "primary=" + BoolText(a.isPrimary)]
  }

  function InstanceLines(insts: seq<Standing>): seq<Line> {
    seq(|insts|, i requires 0 <= i < |insts| => InstanceLine(insts[i]))
  }

  function RecoveryLine(r: Option<Recovery>): Line {
    match r
    case None => ["recovery", "none"]
    case Some(rec) =>
      ["recovery", "blocked=" + BoolText(rec.blocked), "reason=" + ReasonText(rec.reason), "authority=" + rec.authority]
  }

  /** The lines of the disposable and recovery sets, none when there is no recovery projection. */
  function SetLines(tag: string, vals: seq<string>): seq<Line> {
    Tagged(tag, SortBy(Itself(), vals))
  }

  function DisposableOf(t: Snapshot): seq<string> {
    if t.recovery.Some? then t.recovery.value.disposable else []
  }

  function RecoverySetOf(t: Snapshot): seq<string> {
    if t.recovery.Some? then t.recovery.value.recoverySet else []
  }

  function StatusLine(t: Snapshot): Line {
    ["authorityStatus=" + t.authorityStatus]
  }

  function StandingLines(t: Snapshot): seq<Line> {
    InstanceLines(Standings(SortBy(PodOf(), t.assessments)))
  }

  /** The digest's lines, section by section. */
  function AfterSets(t: Snapshot): seq<Line> {
    [StatusLine(t)] + StandingLines(t)
  }

  function AfterDisposable(t: Snapshot): seq<Line> {
    SetLines("recoverySet", RecoverySetOf(t)) + AfterSets(t)
  }

  function Lines(t: Snapshot): seq<Line> {
    [RecoveryLine(t.recovery)] + (SetLines("disposable", DisposableOf(t)) + AfterDisposable(t))
  }

  function Render(lines: seq<Line>): string {
    if lines == [] then "" else Render(lines[..|lines| - 1]) + Join(lines[|lines| - 1], '|') + "\n"
  }

  function DigestInput(t: Snapshot): string {
    Render(Lines(t))
  }

  /** The hash state, as the text written to it so far. */
  class HashState {
    var written: string

    constructor ()
      ensures written == ""
    {
      written := "";
    }

    method WriteLine(line: Line)
      modifies this
      ensures written == old(written) + Join(line, '|') + "\n"
    {
      written := written + Join(line, '|') + "\n";
    }

    method WriteLines(lines: seq<Line>, ghost before: seq<Line>)
      requires written == Render(before)
      modifies this
      ensures written == Render(before + lines)
    {
      assert before + [] == before;
      for i := 0 to |lines|
        invariant written == Render(before + lines[..i])
      {
        WriteLine(lines[i]);
        RenderSnoc(before + lines[..i], lines[i]);
        assert before + lines[..i + 1] == before + lines[..i] + [lines[i]];
      }
      assert lines[..|lines|] == lines;
    }

    method WriteSortedLines(tag: string, vals: seq<string>, ghost before: seq<Line>)
      requires written == Render(before)
      modifies this
      ensures written == Render(before + SetLines(tag, vals))
    {
      WriteLines(SetLines(tag, vals), before);
    }
  }

  lemma RenderSnoc(lines: seq<Line>, line: Line)
    ensures Render(lines + [line]) == Render(lines) + Join(line, '|') + "\n"
  {
    assert (lines + [line])[..|lines|] == lines;
  }

  /** The lines of the recovery projection. */
  function RecoveryLines(t: Snapshot): seq<Line> {
    [RecoveryLine(t.recovery)] + SetLines("disposable", DisposableOf(t)) + SetLines("recoverySet", RecoverySetOf(t))
  }

  lemma Regroup(a: seq<Line>, b: seq<Line>, c: seq<Line>, d: seq<Line>, e: seq<Line>)
    ensures a + b + c + d + e == a + (b + (c + (d + e)))
  {}

  lemma LinesInOrder(t: Snapshot)
    ensures RecoveryLines(t) + [StatusLine(t)] + StandingLines(t) == Lines(t)
  {
    Regroup([RecoveryLine(t.recovery)], SetLines("disposable", DisposableOf(t)),
      SetLines("recoverySet", RecoverySetOf(t)),
            [StatusLine(t)], StandingLines(t));
  }

  method WriteRecovery(h: HashState, t: Snapshot)
    requires h.written == Render([])
    modifies h
    ensures h.written == Render(RecoveryLines(t))
  {
    ghost var head := [RecoveryLine(t.recovery)];
    h.WriteLines([RecoveryLine(t.recovery)], []);
    assert [] + head == head;
    if t.recovery.Some? {
      h.WriteSortedLines("disposable", t.recovery.value.disposable, head);
      h.WriteSortedLines("recoverySet", t.recovery.value.recoverySet, head + SetLines("disposable", DisposableOf(t)));
    } else {
      assert RecoveryLines(t) == head;
    }
  }

  /** hashAssessment, up to the hash function itself; nothing is hashed for a missing result. */
  method HashAssessment(t: Option<Snapshot>, digest: string -> string) returns (hash: string)
    ensures hash == HashOf(t, digest)
  {
    if t.None? { return ""; }
    var h := new HashState();
    WriteRecovery(h, t.value);
    h.WriteLines([StatusLine(t.value)], RecoveryLines(t.value));
    h.WriteLines(StandingLines(t.value), RecoveryLines(t.value) + [StatusLine(t.value)]);
    LinesInOrder(t.value);
    hash := digest(h.written);
  }

  function HashOf(t: Option<Snapshot>, digest: string -> string): string {
    if t.None? then "" else digest(DigestInput(t.value))
  }

  // ----- the gates -----

  predicate Valid(p: Proof, current: Option<Snapshot>, digest: string -> string) {
    && p.assessmentHash != "" && p.assessmentHash == HashOf(current, digest)
    && p.authority != "" && |p.disposable| > 0 && p.escrowVerified
  }

  /** A proof holds only against a triage that gave a result, and is that triage's digest with an
      authority, something disposable and a verified escrow. */
  lemma ValidIff(p: Proof, current: Option<Snapshot>, digest: string -> string)
    ensures Valid(p, current, digest) <==>
            && current.Some? && p.assessmentHash == digest(DigestInput(current.value)) != ""
            && p.authority != "" && p.disposable != [] && p.escrowVerified
  {}

  method AuthorizesClear(p: Proof, instance: string) returns (ok: bool)
    ensures ok <==> MayClear(p, instance)
  {
    if instance == "" || instance == p.authority { return false; }
    for i := 0 to |p.disposable|
      invariant instance !in p.disposable[..i]
    {
      if p.disposable[i] == instance { return true; }
    }
    assert p.disposable[..|p.disposable|] == p.disposable;
    ok := false;
  }

  predicate MayClear(p: Proof, instance: string) {
    instance != "" && instance != p.authority && instance in p.disposable
  }

  // ----- the digest is canonical -----

  predicate DistinctPods(s: seq<Assessment>) {
    forall i, j :: 0 <= i < j < |s| ==> s[i].pod != s[j].pod
  }

  ghost predicate SameRecovery(r: Recovery, s: Recovery) {
    && r.blocked == s.blocked && r.reason == s.reason && r.authority == s.authority
    && multiset(r.disposable) == multiset(s.disposable) && multiset(r.recoverySet) == multiset(s.recoverySet)
  }

  /** The same recovery projection, authority status and standing of every instance, in whatever order. */
  ghost predicate SameState(t: Snapshot, u: Snapshot) {
    && t.authorityStatus == u.authorityStatus
    && multiset(Standings(t.assessments)) == multiset(Standings(u.assessments))
    && t.recovery.None? == u.recovery.None?
    && (t.recovery.Some? ==> SameRecovery(t.recovery.value, u.recovery.value))
  }

  function PodOfStanding(): Standing -> string {
    (s: Standing) => s.pod
  }

  lemma StandingsCons(x: Assessment, s: seq<Assessment>)
    ensures Standings([x] + s) == [StandingOf(x)] + Standings(s)
  {}

  lemma InsertHere<T>(key: T -> string, x: T, y: T, s: seq<T>)
    ensures InsertBy(key, x, [y] + s) == if NotAfter(key, x, y) then [x] + ([y] + s) else [y] + InsertBy(key, x, s)
  {
    assert ([y] + s)[1..] == s;
  }

  lemma {:induction false} InsertThenProject(x: Assessment, s: seq<Assessment>)
    ensures Standings(InsertBy(PodOf(), x, s)) == InsertBy(PodOfStanding(), StandingOf(x), Standings(s))
  {
    if s == [] {
      assert InsertBy(PodOf(), x, s) == [x];
    } else {
      var y, rest := s[0], s[1..];
      assert s == [y] + rest;
      InsertThenProject(x, rest);
      InsertHere(PodOf(), x, y, rest);
      InsertHere(PodOfStanding(), StandingOf(x), StandingOf(y), Standings(rest));
      StandingsCons(y, rest);
      StandingsCons(x, s);
      StandingsCons(y, InsertBy(PodOf(), x, rest));
    }
  }

  lemma SortCons<T>(key: T -> string, x: T, s: seq<T>)
    ensures SortBy(key, [x] + s) == InsertBy(key, x, SortBy(key, s))
  {
    assert ([x] + s)[1..] == s;
  }

  /** Sorting instances and then keeping their standing is keeping it and then sorting. */
  lemma {:induction false} SortThenProject(s: seq<Assessment>)
    ensures Standings(SortBy(PodOf(), s)) == SortBy(PodOfStanding(), Standings(s))
  {
    if s != [] {
      var x, rest := s[0], s[1..];
      assert s == [x] + rest;
      SortThenProject(rest);
      SortCons(PodOf(), x, rest);
      StandingsCons(x, rest);
      SortCons(PodOfStanding(), StandingOf(x), Standings(rest));
      InsertThenProject(x, SortBy(PodOf(), rest));
    }
  }

  lemma StandingsIdentified(s: seq<Assessment>)
    requires DistinctPods(s)
    ensures KeyIdentifies(PodOfStanding(), Standings(s))
  {
    var v := Standings(s);
    forall x, y | x in v && y in v && x.pod == y.pod ensures x == y {
      var i :| 0 <= i < |v| && v[i] == x;
      var j :| 0 <= j < |v| && v[j] == y;
      assert s[i].pod == s[j].pod;
    }
  }

  /** Reordering the assessments, the disposable set or the recovery set changes nothing. */
  lemma DigestForgetsOrder(t: Snapshot, u: Snapshot)
    requires SameState(t, u) && DistinctPods(t.assessments)
    ensures DigestInput(t) == DigestInput(u)
  {
    StandingsIdentified(t.assessments);
    SortThenProject(t.assessments);
    SortThenProject(u.assessments);
    SortForgetsOrder(PodOfStanding(), Standings(t.assessments), Standings(u.assessments));
    SortForgetsOrder(Itself(), DisposableOf(t), DisposableOf(u));
    SortForgetsOrder(Itself(), RecoverySetOf(t), RecoverySetOf(u));
  }

  // ----- the digest input can be read back -----

  predicate Delimited(s: string) {
    Free(s, '|') && Free(s, '\n')
  }

  ghost predicate AllDelimited(s: seq<string>) {
    forall x :: x in s ==> Delimited(x)
  }

  /** No field the digest prints contains a delimiter. */
  ghost predicate DelimiterFree(t: Snapshot) {
    && Delimited(t.authorityStatus)
    && (forall a :: a in t.assessments ==> Delimited(a.pod) && Delimited(a.lsn))
    && (t.recovery.Some? ==> Delimited(t.recovery.value.authority))
    && AllDelimited(DisposableOf(t)) && AllDelimited(RecoverySetOf(t))
  }

  ghost predicate PlainLine(line: Line) {
    line != [] && forall i :: 0 <= i < |line| ==> Delimited(line[i])
  }

  ghost predicate PlainLines(lines: seq<Line>) {
    forall i :: 0 <= i < |lines| ==> PlainLine(lines[i])
  }

  function Joined(lines: seq<Line>): seq<string> {
    seq(|lines|, i requires 0 <= i < |lines| => Join(lines[i], '|'))
  }

  lemma {:induction false} JoinIsFree(line: Line)
    requires PlainLine(line)
    ensures Free(Join(line, '|'), '\n')
  {
    if |line| > 1 { JoinIsFree(line[1..]); }
  }

  lemma {:induction false} RenderIsTerminated(lines: seq<Line>)
    ensures Render(lines) == Terminated(Joined(lines), '\n')
  {
    if lines != [] {
      var init, last := lines[..|lines| - 1], lines[|lines| - 1];
      RenderIsTerminated(init);
      assert Joined(lines) == Joined(init) + [Join(last, '|')];
      TerminatedSnoc(Joined(init), Join(last, '|'), '\n');
    }
  }

  lemma {:induction false} TerminatedSnoc(parts: seq<string>, last: string, end: char)
    ensures Terminated(parts + [last], end) == Terminated(parts, end) + last + [end]
  {
    if parts != [] {
      TerminatedSnoc(parts[1..], last, end);
      assert (parts + [last])[1..] == parts[1..] + [last];
    } else {
      assert ([last])[1..] == [];
      assert [] + [last] == [last];
    }
  }

  /** Rendered text determines its lines. */
  lemma RenderInjective(a: seq<Line>, b: seq<Line>)
    requires PlainLines(a) && PlainLines(b) && Render(a) == Render(b)
    ensures a == b
  {
    RenderIsTerminated(a);
    RenderIsTerminated(b);
    forall i | 0 <= i < |a| ensures Free(Joined(a)[i], '\n') && Split(Joined(a)[i], '|') == a[i] {
      JoinIsFree(a[i]);
      SplitJoined(a[i], '|');
    }
    forall i | 0 <= i < |b| ensures Free(Joined(b)[i], '\n') && Split(Joined(b)[i], '|') == b[i] {
      JoinIsFree(b[i]);
      SplitJoined(b[i], '|');
    }
    SplitTerminated(Joined(a), '\n');
    SplitTerminated(Joined(b), '\n');
    assert (Joined(a) + [""])[..|a|] == Joined(a) && (Joined(b) + [""])[..|b|] == Joined(b);
    assert |a| == |b|;
    forall i | 0 <= i < |a| ensures a[i] == b[i] {
      assert (Joined(a) + [""])[i] == (Joined(b) + [""])[i];
      assert Joined(a)[i] == Joined(b)[i];
    }
  }

  // A section of equally tagged lines ends where the tag changes.

  ghost predicate AllTagged(lines: seq<Line>, tag: string) {
    forall i :: 0 <= i < |lines| ==> |lines[i]| > 0 && lines[i][0] == tag
  }

  ghost predicate StartsOtherwise(lines: seq<Line>, tag: string) {
    lines != [] && |lines[0]| > 0 && lines[0][0] != tag
  }

  function TagRun(lines: seq<Line>, tag: string): nat {
    if lines != [] && lines[0] != [] && lines[0][0] == tag then 1 + TagRun(lines[1..], tag) else 0
  }

  lemma {:induction false} TagRunOf(a: seq<Line>, b: seq<Line>, tag: string)
    requires AllTagged(a, tag) && StartsOtherwise(b, tag)
    ensures TagRun(a + b, tag) == |a|
  {
    if a == [] {
      assert a + b == b;
    } else {
      TagRunOf(a[1..], b, tag);
      assert (a + b)[1..] == a[1..] + b;
    }
  }

  lemma SectionsMatch(a: seq<Line>, b: seq<Line>, c: seq<Line>, d: seq<Line>, tag: string)
    requires AllTagged(a, tag) && AllTagged(c, tag) && StartsOtherwise(b, tag) && StartsOtherwise(d, tag)
    requires a + b == c + d
    ensures a == c && b == d
  {
    TagRunOf(a, b, tag);
    TagRunOf(c, d, tag);
    assert a == (a + b)[..|a|] && b == (a + b)[|a|..];
    assert c == (c + d)[..|c|] && d == (c + d)[|c|..];
  }

  lemma PrefixCancels(p: string, x: string, y: string)
    requires p + x == p + y
    ensures x == y
  {
    assert x == (p + x)[|p|..] && y == (p + y)[|p|..];
  }

  lemma SetLinesMatch(tag: string, v: seq<string>, w: seq<string>)
    requires SetLines(tag, v) == SetLines(tag, w)
    ensures multiset(v) == multiset(w)
  {
    var a, b := SortBy(Itself(), v), SortBy(Itself(), w);
    assert |Tagged(tag, a)| == |a| && |Tagged(tag, b)| == |b|;
    forall i | 0 <= i < |a| ensures a[i] == b[i] {
      assert Tagged(tag, a)[i] == [tag, a[i]] && Tagged(tag, b)[i] == [tag, b[i]];
      assert [tag, a[i]][1] == [tag, b[i]][1];
    }
    assert a == b;
  }

  lemma ClassTextInjective(c: Classification, d: Classification)
    requires ClassText(c) == ClassText(d)
    ensures c == d
  {
    assert |ClassText(c)| == |ClassText(d)| && ClassText(c)[0] == ClassText(d)[0];
  }

  lemma ReasonTextInjective(r: RecoveryReason, s: RecoveryReason)
    requires ReasonText(r) == ReasonText(s)
    ensures r == s
  {
    assert |ReasonText(r)| == |ReasonText(s)|;
  }

  lemma BoolTextInjective(a: bool, b: bool)
    requires BoolText(a) == BoolText(b)
    ensures a == b
  {
    assert |BoolText(a)| == |BoolText(b)|;
  }

  lemma InstanceLineInjective(a: Standing, b: Standing)
    requires InstanceLine(a) == InstanceLine(b)
    ensures a == b
  {
    var x, y := InstanceLine(a), InstanceLine(b);
    assert x[1] == y[1] && x[2] == y[2] && x[3] == y[3] && x[4] == y[4] && x[5] == y[5];
    PrefixCancels("class=", ClassText(a.classification), ClassText(b.classification));
    PrefixCancels("tl=", PrintInt(a.timeline), PrintInt(b.timeline));
    PrefixCancels("lsn=", a.lsn, b.lsn);
    PrefixCancels("primary=", BoolText(a.isPrimary), BoolText(b.isPrimary));
    ClassTextInjective(a.classification, b.classification);
    PrintIntInjective(a.timeline, b.timeline);
    BoolTextInjective(a.isPrimary, b.isPrimary);
  }

  lemma InstanceLinesInjective(a: seq<Standing>, b: seq<Standing>)
    requires InstanceLines(a) == InstanceLines(b)
    ensures a == b
  {
    assert |InstanceLines(a)| == |a| && |InstanceLines(b)| == |b|;
    forall i | 0 <= i < |a| ensures a[i] == b[i] {
      assert InstanceLines(a)[i] == InstanceLines(b)[i];
      InstanceLineInjective(a[i], b[i]);
    }
  }

  lemma RecoveryLineInjective(r: Recovery, s: Recovery)
    requires RecoveryLine(Some(r)) == RecoveryLine(Some(s))
    ensures r.blocked == s.blocked && r.reason == s.reason && r.authority == s.authority
  {
    var x, y := RecoveryLine(Some(r)), RecoveryLine(Some(s));
    assert x[1] == y[1] && x[2] == y[2] && x[3] == y[3];
    PrefixCancels("blocked=", BoolText(r.blocked), BoolText(s.blocked));
    PrefixCancels("reason=", ReasonText(r.reason), ReasonText(s.reason));
    PrefixCancels("authority=", r.authority, s.authority);
    BoolTextInjective(r.blocked, s.blocked);
    ReasonTextInjective(r.reason, s.reason);
  }

  // The lines a snapshot without delimiters prints are plain.

  lemma DelimitedConcat(a: string, b: string)
    requires Delimited(a) && Delimited(b)
    ensures Delimited(a + b)
  {}

  lemma PrintIntDelimited(n: int)
    ensures Delimited(PrintInt(n))
  {
    var digits := Print(if n < 0 then -n else n, 10);
    assert forall i :: 0 <= i < |digits| ==> IsUpperHex(digits[i]);
    assert Delimited(digits) && Delimited("-");
    DelimitedConcat("-", digits);
  }

  lemma LabelledIsDelimited(blocked: bool, reason: RecoveryReason, authority: string)
    requires Delimited(authority)
    ensures Delimited("blocked=" + BoolText(blocked)) && Delimited("reason=" + ReasonText(reason))
    ensures Delimited("authority=" + authority)
  {
    DelimitedConcat("blocked=", BoolText(blocked));
    DelimitedConcat("reason=", ReasonText(reason));
    DelimitedConcat("authority=", authority);
  }

  lemma RecoveryLinePlain(r: Option<Recovery>)
    requires r.Some? ==> Delimited(r.value.authority)
    ensures PlainLine(RecoveryLine(r))
  {
    assert Delimited("recovery") && Delimited("none");
    if r.Some? { LabelledIsDelimited(r.value.blocked, r.value.reason, r.value.authority); }
  }

  lemma InstanceLinePlain(a: Standing)
    requires Delimited(a.pod) && Delimited(a.lsn)
    ensures PlainLine(InstanceLine(a))
  {
    PrintIntDelimited(a.timeline);
    DelimitedConcat("class=", ClassText(a.classification));
    DelimitedConcat("tl=", PrintInt(a.timeline));
    DelimitedConcat("lsn=", a.lsn);
    DelimitedConcat("primary=", BoolText(a.isPrimary));
  }

  lemma SetLinesPlain(tag: string, vals: seq<string>)
    requires Delimited(tag) && AllDelimited(vals)
    ensures PlainLines(SetLines(tag, vals)) && AllTagged(SetLines(tag, vals), tag)
  {
    var sorted := SortBy(Itself(), vals);
    forall i | 0 <= i < |sorted| ensures Delimited(sorted[i]) {
      assert sorted[i] in multiset(sorted);
    }
  }

  lemma InstanceLinesPlain(insts: seq<Assessment>)
    requires forall a :: a in insts ==> Delimited(a.pod) && Delimited(a.lsn)
    ensures PlainLines(InstanceLines(Standings(SortBy(PodOf(), insts))))
  {
    var sorted := SortBy(PodOf(), insts);
    forall i | 0 <= i < |sorted| ensures PlainLine(InstanceLine(StandingOf(sorted[i]))) {
      assert sorted[i] in multiset(sorted);
      InstanceLinePlain(StandingOf(sorted[i]));
    }
  }

  lemma PlainConcat(a: seq<Line>, b: seq<Line>)
    requires PlainLines(a) && PlainLines(b)
    ensures PlainLines(a + b)
  {}

  lemma StatusLinePlain(t: Snapshot)
    requires Delimited(t.authorityStatus)
    ensures PlainLine(StatusLine(t))
  {
    DelimitedConcat("authorityStatus=", t.authorityStatus);
  }

  lemma LinesPlain(t: Snapshot)
    requires DelimiterFree(t)
    ensures PlainLines(Lines(t))
  {
    RecoveryLinePlain(t.recovery);
    SetLinesPlain("disposable", DisposableOf(t));
    SetLinesPlain("recoverySet", RecoverySetOf(t));
    StatusLinePlain(t);
    InstanceLinesPlain(t.assessments);
    PlainConcat([StatusLine(t)], StandingLines(t));
    PlainConcat(SetLines("recoverySet", RecoverySetOf(t)), AfterSets(t));
    PlainConcat(SetLines("disposable", DisposableOf(t)), AfterDisposable(t));
    PlainConcat([RecoveryLine(t.recovery)], SetLines("disposable", DisposableOf(t)) + AfterDisposable(t));
  }

  lemma SectionStarts(t: Snapshot)
    requires DelimiterFree(t)
    ensures StartsOtherwise(AfterSets(t), "recoverySet") && StartsOtherwise(AfterDisposable(t), "disposable")
    ensures AllTagged(SetLines("recoverySet", RecoverySetOf(t)), "recoverySet")
    ensures AllTagged(SetLines("disposable", DisposableOf(t)), "disposable")
    ensures Lines(t) == [RecoveryLine(t.recovery)] + (SetLines("disposable", DisposableOf(t)) + AfterDisposable(t))
  {
    SetLinesPlain("disposable", DisposableOf(t));
    SetLinesPlain("recoverySet", RecoverySetOf(t));
    assert StatusLine(t)[0][0] == 'a' && "recoverySet"[0] == 'r' && "disposable"[0] == 'd';
    assert AfterSets(t)[0] == StatusLine(t);
    var r := SetLines("recoverySet", RecoverySetOf(t));
    if r == [] {
      assert AfterDisposable(t) == AfterSets(t);
    } else {
      assert AfterDisposable(t)[0] == r[0];
    }
  }

  /** The digest input determines the state it was printed from. */
  lemma DigestInputDeterminesState(t: Snapshot, u: Snapshot)
    requires DelimiterFree(t) && DelimiterFree(u) && DigestInput(t) == DigestInput(u)
    ensures SameState(t, u)
  {
    LinesPlain(t);
    LinesPlain(u);
    RenderInjective(Lines(t), Lines(u));
    SectionStarts(t);
    SectionStarts(u);
    assert Lines(t)[0] == RecoveryLine(t.recovery) && Lines(u)[0] == RecoveryLine(u.recovery);
    assert Lines(t)[1..] == SetLines("disposable", DisposableOf(t)) + AfterDisposable(t);
    assert Lines(u)[1..] == SetLines("disposable", DisposableOf(u)) + AfterDisposable(u);
    SectionsMatch(SetLines("disposable", DisposableOf(t)), AfterDisposable(t),
                  SetLines("disposable", DisposableOf(u)), AfterDisposable(u), "disposable");
    SectionsMatch(SetLines("recoverySet", RecoverySetOf(t)), AfterSets(t),
                  SetLines("recoverySet", RecoverySetOf(u)), AfterSets(u), "recoverySet");
    SetLinesMatch("disposable", DisposableOf(t), DisposableOf(u));
    SetLinesMatch("recoverySet", RecoverySetOf(t), RecoverySetOf(u));
    AfterSetsMatch(t, u);
    assert |RecoveryLine(t.recovery)| == |RecoveryLine(u.recovery)|;
    if t.recovery.Some? { RecoveryLineInjective(t.recovery.value, u.recovery.value); }
  }

  lemma AfterSetsMatch(t: Snapshot, u: Snapshot)
    requires AfterSets(t) == AfterSets(u)
    ensures t.authorityStatus == u.authorityStatus
    ensures multiset(Standings(t.assessments)) == multiset(Standings(u.assessments))
  {
    assert AfterSets(t)[0] == StatusLine(t) && AfterSets(u)[0] == StatusLine(u);
    assert StatusLine(t)[0] == StatusLine(u)[0];
    PrefixCancels("authorityStatus=", t.authorityStatus, u.authorityStatus);
    var v, w := Standings(SortBy(PodOf(), t.assessments)), Standings(SortBy(PodOf(), u.assessments));
    assert AfterSets(t)[1..] == InstanceLines(v) && AfterSets(u)[1..] == InstanceLines(w);
    InstanceLinesInjective(v, w);
    SortThenProject(t.assessments);
    SortThenProject(u.assessments);
  }

  /** A hash that never repeats and is never empty. */
  ghost predicate CollisionFree(digest: string -> string) {
    && (forall x, y {:trigger SameDigest(digest, x, y)} :: SameDigest(digest, x, y) ==> x == y)
    && (forall x :: digest(x) != "")
  }

  predicate SameDigest(digest: string -> string, x: string, y: string) {
    digest(x) == digest(y)
  }

  /** A proof bound to one snapshot is valid for another exactly when nothing the decision rests on has drifted. */
  lemma DriftIsDetected(p: Proof, t: Snapshot, u: Snapshot, digest: string -> string)
    requires CollisionFree(digest) && p.assessmentHash == HashOf(Some(t), digest)
    requires DelimiterFree(t) && DelimiterFree(u) && DistinctPods(t.assessments)
    ensures Valid(p, Some(u), digest) <==>
              SameState(t, u) && p.authority != "" && |p.disposable| > 0 && p.escrowVerified
  {
    assert SameDigest(digest, DigestInput(t), DigestInput(u)) ==> DigestInput(t) == DigestInput(u);
    if SameState(t, u) { DigestForgetsOrder(t, u); }
    if DigestInput(t) == DigestInput(u) { DigestInputDeterminesState(t, u); }
  }

  /** In particular every instance is where it was. */
  lemma SameStateKeepsInstances(t: Snapshot, u: Snapshot, a: Assessment)
    requires SameState(t, u) && DistinctPods(u.assessments) && a in t.assessments
    ensures exists b :: b in u.assessments && StandingOf(b) == StandingOf(a)
    ensures forall b :: b in u.assessments && b.pod == a.pod ==> StandingOf(b) == StandingOf(a)
  {
    var i :| 0 <= i < |t.assessments| && t.assessments[i] == a;
    assert Standings(t.assessments)[i] == StandingOf(a);
    assert StandingOf(a) in multiset(Standings(u.assessments));
    var j :| 0 <= j < |u.assessments| && Standings(u.assessments)[j] == StandingOf(a);
    assert u.assessments[j] in u.assessments;
  }
}
