// Deleting WAL older than the checkpoint: which segments go, when a prune may start, and when
// a recovered primary may be handed back.
module WalPrune {
  import opened Options
  import opened Faults
  import opened Text
  import opened Numbers
  import opened Lineage
  import opened Newest

  // ----- positions -----

  function Bit(b: nat): nat {
    b % 2
  }

  /** Bitwise or. */
  function Or(a: nat, b: nat): nat
    decreases a + b
  {
    if a == 0 && b == 0 then 0
    else 2 * Or(a / 2, b / 2) + if Bit(a) == 1 || Bit(b) == 1 then 1 else 0
  }

  function Power(k: nat): nat {
    if k == 0 then 1 else 2 * Power(k - 1)
  }

  /** `hi<<32 | lo` on 64-bit words. */
  function Combine(hi: nat, lo: nat): nat {
    Or((hi * TWO32) % TWO64, lo)
  }

  /** strings.SplitN(s, sep, 2). */
  function SplitInTwo(s: string, sep: char): seq<string> {
    var parts := Split(s, sep);
    if |parts| == 1 then parts else [parts[0], Join(parts[1..], sep)]
  }

  function ParseLSN(s: string): Option<nat> {
    var parts := SplitInTwo(TrimSpace(s), '/');
    if |parts| != 2 then None
    else
      match (ParseUint64(parts[0], 16), ParseUint64(parts[1], 16))
      case (Some(hi), Some(lo)) => Some(Combine(hi, lo))
      case _ => None
  }

  lemma {:induction false} OrOfDisjoint(a: nat, b: nat, k: nat)
    requires b < Power(k)
    ensures Or(a * Power(k), b) == a * Power(k) + b
    decreases k
  {
    if k == 0 {
      OrZero(a);
    } else {
      var c := a * Power(k - 1);
      assert a * Power(k) == 2 * c;
      OrOfDisjoint(a, b / 2, k - 1);
    }
  }

  lemma {:induction false} OrZero(a: nat)
    ensures Or(a, 0) == a
    decreases a
  {
    if a > 0 { OrZero(a / 2); }
  }

  lemma Power32()
    ensures Power(32) == TWO32
  {
    assert Power(8) == 256;
    assert Power(16) == 0x1_0000;
    assert Power(24) == 0x100_0000;
  }

  lemma SmallMod(n: nat)
    requires n < TWO64
    ensures n % TWO64 == n
  {}

  /** With halves of 32 bits, shift-or is arithmetic. */
  lemma CombineIsSum(hi: nat, lo: nat)
    requires hi < TWO32 && lo < TWO32
    ensures Combine(hi, lo) == hi * TWO32 + lo < TWO64
  {
    Power32();
    SmallMod(hi * TWO32);
    OrOfDisjoint(hi, lo, 32);
  }

  /** What any two printed halves parse to. */
  lemma ParseHalves(hi: nat, lo: nat)
    ensures ParseLSN(Print(hi, 16) + "/" + Print(lo, 16)) ==
            if hi < TWO64 && lo < TWO64 then Some(Combine(hi, lo)) else None
  {
    var h, l := Print(hi, 16), Print(lo, 16);
    PrintIsSlashFree(hi);
    PrintIsSlashFree(lo);
    var s := h + ['/'] + l;
    TrimNothing(s);
    SplitHead(h, l, '/');
    SplitWhole(l, '/');
    assert Split(s, '/') == [h, l] && Join([l], '/') == l;
    ParsePrinted(hi, 16);
    ParsePrinted(lo, 16);
  }

  /** A low half of more than 32 bits is not refused but merged into the high one: 1/100000000
      reads as 1/0. */
  lemma WideLowHalfIsMerged(hi: nat)
    requires hi < TWO32
    ensures ParseLSN(Print(hi, 16) + "/" + Print(hi * TWO32, 16)) == Some(hi * TWO32)
  {
    ParseHalves(hi, hi * TWO32);
    CombineSame(hi, hi * TWO32);
  }

  lemma CombineSame(hi: nat, high: nat)
    requires high == hi * TWO32 < TWO64
    ensures Combine(hi, high) == high
  {
    SmallMod(high);
    OrSame((hi * TWO32) % TWO64, high);
  }

  lemma {:induction false} OrSame(a: nat, b: nat)
    requires a == b
    ensures Or(a, b) == a
    decreases a
  {
    if a > 0 { OrSame(a / 2, b / 2); }
  }

  /** Reading back a printed position gives the position, for every 64-bit value. */
  lemma LSNRoundTrip(lsn: nat)
    requires lsn < TWO64
    ensures ParseLSN(PrintLSN(lsn)) == Some(lsn)
  {
    ParseHalves(lsn / TWO32, lsn % TWO32);
    CombineIsSum(lsn / TWO32, lsn % TWO32);
  }

  lemma PrintIsSlashFree(n: nat)
    ensures Free(Print(n, 16), '/')
    ensures !IsSpace(Print(n, 16)[0]) && !IsSpace(Print(n, 16)[|Print(n, 16)| - 1])
  {
    var s := Print(n, 16);
    assert forall i :: 0 <= i < |s| ==> IsUpperHex(s[i]);
  }

  // ----- the position recovery ended at -----

  const REDO_DONE := "redo done at "

  /** strings.Index(s[i..], sub), counted from the start of s. */
  function IndexFrom(s: string, sub: string, i: nat): (r: Option<nat>)
    requires i <= |s|
    ensures r.Some? ==> i <= r.value <= |s| - |sub|
    decreases |s| - i
  {
    if i + |sub| > |s| then None
    else if MatchAt(s, sub, i) then Some(i)
    else if i == |s| then None
    else IndexFrom(s, sub, i + 1)
  }

  predicate IsPunctuation(c: char) {
    c == ',' || c == ';'
  }

  /** strings.TrimRight(s, ",;"). */
  function TrimPunctuation(s: string): string {
    if s != "" && IsPunctuation(s[|s| - 1]) then TrimPunctuation(s[..|s| - 1]) else s
  }

  function ParseRedoDone(out: string): Option<nat> {
    match IndexFrom(out, REDO_DONE, 0)
    case None => None
    case Some(i) =>
      var fields := Fields(out[i + |REDO_DONE|..]);
      if fields == [] then None else ParseLSN(TrimPunctuation(fields[0]))
  }

  lemma {:induction false} IndexFinds(s: string, sub: string, i: nat, k: nat)
    requires i <= k && k + |sub| <= |s| && MatchAt(s, sub, k) && sub != ""
    requires forall j :: i <= j < k ==> !MatchAt(s, sub, j)
    ensures IndexFrom(s, sub, i) == Some(k)
    decreases k - i
  {
    if i < k { IndexFinds(s, sub, i + 1, k); }
  }

  lemma {:induction false} TrimsPunctuation(s: string, punct: string)
    requires (forall i :: 0 <= i < |punct| ==> IsPunctuation(punct[i])) && s != "" && !IsPunctuation(s[|s| - 1])
    ensures TrimPunctuation(s + punct) == s
  {
    if punct == "" {
      assert s + punct == s;
    } else {
      var n := |punct| - 1;
      assert (s + punct)[..|s| + n] == s + punct[..n];
      TrimsPunctuation(s, punct[..n]);
    }
  }

  lemma FormattedIsWord(lsn: nat)
    ensures IsWord(PrintLSN(lsn)) && IsUpperHex(PrintLSN(lsn)[|PrintLSN(lsn)| - 1])
  {
    var h, l := Print(lsn / TWO32, 16), Print(lsn % TWO32, 16);
    assert forall i :: 0 <= i < |h| ==> IsUpperHex(h[i]);
    assert forall i :: 0 <= i < |l| ==> IsUpperHex(l[i]);
  }

  /** Whatever surrounds it, the first "redo done at" position printed in the recovery output
      is the one read, with or without punctuation behind it. */
  lemma RedoDoneIsRead(before: string, lsn: nat, punct: string, space: char, rest: string)
    requires lsn < TWO64 && IsSpace(space) && forall i :: 0 <= i < |punct| ==> IsPunctuation(punct[i])
    requires var out := before + REDO_DONE + (PrintLSN(lsn) + punct + [space] + rest);
             forall j :: 0 <= j < |before| ==> !MatchAt(out, REDO_DONE, j)
    ensures ParseRedoDone(before + REDO_DONE + (PrintLSN(lsn) + punct + [space] + rest)) == Some(lsn)
  {
    var tail := PrintLSN(lsn) + punct + [space] + rest;
    var out := before + REDO_DONE + tail;
    assert MatchAt(out, REDO_DONE, |before|);
    IndexFinds(out, REDO_DONE, 0, |before|);
    assert out[|before| + |REDO_DONE|..] == tail;
    FormattedIsWord(lsn);
    FieldsHead(PrintLSN(lsn) + punct, space, rest);
    TrimsPunctuation(PrintLSN(lsn), punct);
    LSNRoundTrip(lsn);
  }

  // ----- segment names -----

  predicate IsSegmentName(name: string) {
    |name| == 24 && IsHex(name)
  }

  predicate IsHex(s: string) {
    forall i :: 0 <= i < |s| ==> IsUpperHex(s[i])
  }

  /** The number a string of hexadecimal digits spells: timeline, log and segment in one. */
  function Value(s: string): nat
    requires IsHex(s)
  {
    if s == "" then 0 else 16 * Value(s[..|s| - 1]) + DigitValue(s[|s| - 1])
  }

  lemma {:induction false} LexSnoc(a: string, b: string, x: char, y: char)
    requires |a| == |b|
    ensures LexLess(a + [x], b + [y]) <==> LexLess(a, b) || (a == b && x < y)
  {
    var c, d := a + [x], b + [y];
    if a != "" {
      assert c[1..] == a[1..] + [x] && d[1..] == b[1..] + [y];
      LexSnoc(a[1..], b[1..], x, y);
      assert a == [a[0]] + a[1..] && b == [b[0]] + b[1..];
    }
  }

  /** Names of equal width compare as text exactly as the numbers they spell. */
  lemma {:induction false} LexIsNumeric(a: string, b: string)
    requires |a| == |b| && IsHex(a) && IsHex(b)
    ensures LexLess(a, b) <==> Value(a) < Value(b)
    ensures a == b <==> Value(a) == Value(b)
  {
    if a != "" {
      var n := |a| - 1;
      var p, q, x, y := a[..n], b[..n], a[n], b[n];
      assert a == p + [x] && b == q + [y];
      LexIsNumeric(p, q);
      LexSnoc(p, q, x, y);
      DigitOrder(x, y);
    }
  }

  lemma DigitOrder(x: char, y: char)
    requires IsUpperHex(x) && IsUpperHex(y)
    ensures 0 <= DigitValue(x) < 16 && 0 <= DigitValue(y) < 16
    ensures (x < y <==> DigitValue(x) < DigitValue(y)) && (x == y <==> DigitValue(x) == DigitValue(y))
  {}

  // ----- the prune -----

  const WAL_DIR := "/var/lib/postgresql/data/pgdata/pg_wal"

  function PathOf(name: string): string {
    WAL_DIR + "/" + name
  }

  function Paths(names: seq<string>): seq<string> {
    seq(|names|, i requires 0 <= i < |names| => PathOf(names[i]))
  }

  /** What follows the last slash. */
  function BaseName(path: string): string {
    var parts := Split(path, '/');
    parts[|parts| - 1]
  }

  function IsOlder(redo: string): string -> bool {
    (name: string) => LexLess(name, redo)
  }

  function NotOlder(redo: string): string -> bool {
    (name: string) => !LexLess(name, redo)
  }

  ghost predicate AllSegments(names: seq<string>) {
    forall i :: 0 <= i < |names| ==> IsSegmentName(names[i])
  }

  lemma {:induction false} TerminatedIsJoined(parts: seq<string>, end: char)
    requires parts != []
    ensures Terminated(parts, end) == Join(parts, end) + [end]
  {
    if |parts| > 1 {
      TerminatedIsJoined(parts[1..], end);
    } else {
      assert parts[1..] == [];
    }
  }

  lemma {:induction false} JoinEnds(parts: seq<string>, sep: char)
    requires parts != [] && forall i :: 0 <= i < |parts| ==> parts[i] != ""
    ensures Join(parts, sep) != "" && Join(parts, sep)[0] == parts[0][0]
    ensures var last := parts[|parts| - 1]; Join(parts, sep)[|Join(parts, sep)| - 1] == last[|last| - 1]
  {
    if |parts| > 1 {
      var rest := parts[1..];
      JoinEnds(rest, sep);
      assert rest[|rest| - 1] == parts[|parts| - 1];
      var head, tail := parts[0] + [sep], Join(rest, sep);
      assert Join(parts, sep) == head + tail;
      assert (head + tail)[|head + tail| - 1] == tail[|tail| - 1] && (head + tail)[0] == parts[0][0];
    }
  }

  lemma PathIsPlain(name: string)
    requires IsSegmentName(name)
    ensures Free(PathOf(name), '\n') && PathOf(name) != "" && !IsSpace(PathOf(name)[0])
    ensures !IsSpace(PathOf(name)[|PathOf(name)| - 1]) && TrimSpace(PathOf(name)) == PathOf(name)
  {
    assert Free(WAL_DIR, '\n') && WAL_DIR[0] == '/';
    assert Free(name, '\n');
    TrimNothing(PathOf(name));
  }

  /** The lines of what `find` prints are the paths it found. */
  lemma ListingLines(names: seq<string>)
    requires AllSegments(names)
    ensures Split(TrimSpace(Terminated(Paths(names), '\n')), '\n') == if names == [] then [""] else Paths(names)
  {
    var paths := Paths(names);
    if names != [] {
      forall i | 0 <= i < |names| ensures paths[i] != "" && Free(paths[i], '\n') && !IsSpace(paths[i][0]) &&
        !IsSpace(paths[i][|paths[i]| - 1]) {
        PathIsPlain(names[i]);
      }
      TerminatedIsJoined(paths, '\n');
      TrimDropsTrailing(Join(paths, '\n'), '\n');
      JoinEnds(paths, '\n');
      TrimNothing(Join(paths, '\n'));
      SplitJoined(paths, '\n');
    }
  }

  lemma {:induction false} LastPart(prefix: string, name: string)
    requires Free(name, '/')
    ensures BaseName(prefix + ['/'] + name) == name
  {
    var s := prefix + ['/'] + name;
    SplitWhole(name, '/');
    if prefix == "" {
      SplitHead("", name, '/');
      assert s == "" + ['/'] + name;
    } else {
      assert s[1..] == prefix[1..] + ['/'] + name;
      LastPart(prefix[1..], name);
      BaseOfTail(s, |prefix|);
    }
  }

  lemma BaseOfTail(s: string, i: nat)
    requires 1 <= i < |s| && s[i] == '/'
    ensures BaseName(s) == BaseName(s[1..])
  {
    PartsWithSeparator(s[1..], i - 1);
  }

  lemma {:induction false} PartsWithSeparator(s: string, i: nat)
    requires i < |s| && s[i] == '/'
    ensures |Split(s, '/')| > 1
  {
    if i > 0 { PartsWithSeparator(s[1..], i - 1); }
  }

  lemma BaseOfPath(name: string)
    requires IsSegmentName(name)
    ensures BaseName(PathOf(name)) == name
  {
    assert Free(name, '/');
    LastPart(WAL_DIR, name);
    assert PathOf(name) == WAL_DIR + ['/'] + name;
  }

  // What the loop over the listing selects.

  function ToDelete(lines: seq<string>, redo: string): seq<string> {
    if lines == [] then []
    else
      var path := TrimSpace(lines[|lines| - 1]);
      ToDelete(lines[..|lines| - 1], redo) + if path != "" && LexLess(BaseName(path), redo) then [path] else []
  }

  function KeptCount(lines: seq<string>, redo: string): nat {
    if lines == [] then 0
    else
      var path := TrimSpace(lines[|lines| - 1]);
      KeptCount(lines[..|lines| - 1], redo) + if path != "" && !LexLess(BaseName(path), redo) then 1 else 0
  }

  /** What one more listed segment adds to the selection. */
  lemma SelectionSnoc(lines: seq<string>, name: string, redo: string)
    requires IsSegmentName(name)
    ensures ToDelete(lines + [PathOf(name)], redo) == ToDelete(lines, redo)
              + if LexLess(name, redo) then [PathOf(name)] else []
    ensures KeptCount(lines + [PathOf(name)], redo) == KeptCount(lines, redo) + if LexLess(name, redo) then 0 else 1
  {
    PathIsPlain(name);
    BaseOfPath(name);
    assert (lines + [PathOf(name)])[..|lines|] == lines;
  }

  ghost predicate SelectsRight(names: seq<string>, redo: string) {
    && ToDelete(Paths(names), redo) == Paths(Where(names, IsOlder(redo)))
    && KeptCount(Paths(names), redo) == |Where(names, NotOlder(redo))|
    && |Where(names, IsOlder(redo))| + |Where(names, NotOlder(redo))| == |names|
  }

  lemma SelectionStep(init: seq<string>, last: string, redo: string)
    requires IsSegmentName(last) && SelectsRight(init, redo)
    ensures SelectsRight(init + [last], redo)
  {
    var older := Where(init, IsOlder(redo));
    PathsSnoc(init, last);
    PathsSnoc(older, last);
    SelectionSnoc(Paths(init), last, redo);
    WhereSnoc(init, last, IsOlder(redo));
    WhereSnoc(init, last, NotOlder(redo));
    assert older + [] == older && Paths(older) + [] == Paths(older);
  }

  lemma {:induction false} SelectionOfPaths(names: seq<string>, redo: string)
    requires AllSegments(names)
    ensures SelectsRight(names, redo)
  {
    if names == [] {
      assert Paths(names) == [];
    } else {
      var init, last := names[..|names| - 1], names[|names| - 1];
      SelectionOfPaths(init, redo);
      SelectionStep(init, last, redo);
      assert init + [last] == names;
    }
  }

  lemma PathsSnoc(names: seq<string>, name: string)
    ensures Paths(names + [name]) == Paths(names) + [PathOf(name)]
  {}

  /** The printed listing is read back exactly: what is deleted are the paths of the older
      segments, the rest is counted as kept. */
  lemma SelectionOfListing(names: seq<string>, redo: string)
    requires AllSegments(names)
    ensures var lines := Split(TrimSpace(Terminated(Paths(names), '\n')), '\n');
            && ToDelete(lines, redo) == Paths(Where(names, IsOlder(redo)))
            && KeptCount(lines, redo) == |Where(names, NotOlder(redo))|
            && |ToDelete(lines, redo)| + KeptCount(lines, redo) == |names|
  {
    ListingLines(names);
    SelectionOfPaths(names, redo);
    if names == [] {
      assert [""][..0] == [];
      TrimNothing("");
    }
  }

  function NotListed(paths: seq<string>): string -> bool {
    (name: string) => PathOf(name) !in paths
  }

  lemma RemovingOlderLeavesTheRest(names: seq<string>, redo: string)
    ensures Where(names, NotListed(Paths(Where(names, IsOlder(redo))))) == Where(names, NotOlder(redo))
  {
    var older := Where(names, IsOlder(redo));
    forall i | 0 <= i < |names| ensures NotListed(Paths(older))(names[i]) == NotOlder(redo)(names[i]) {
      WhereIn(names, IsOlder(redo), names[i]);
      PathListed(older, names[i]);
    }
    WhereSame(names, NotListed(Paths(older)), NotOlder(redo));
  }

  lemma PathListed(names: seq<string>, name: string)
    ensures PathOf(name) in Paths(names) <==> name in names
  {
    var paths := Paths(names);
    if PathOf(name) in paths {
      var i :| 0 <= i < |paths| && paths[i] == PathOf(name);
      assert PathOf(name)[|WAL_DIR| + 1..] == name && PathOf(names[i])[|WAL_DIR| + 1..] == names[i];
    }
    if name in names {
      var i :| 0 <= i < |names| && names[i] == name;
      assert paths[i] == PathOf(name);
    }
  }

  /** What is left holds exactly the listed segments whose number is not below the checkpoint's. */
  lemma PruneIsNumeric(names: seq<string>, redo: string, name: string)
    requires AllSegments(names) && IsSegmentName(redo) && IsSegmentName(name)
    ensures name in Where(names, IsOlder(redo)) <==> name in names && Value(name) < Value(redo)
    ensures name in Where(names, NotOlder(redo)) <==> name in names && Value(name) >= Value(redo)
  {
    WhereIn(names, IsOlder(redo), name);
    WhereIn(names, NotOlder(redo), name);
    LexIsNumeric(name, redo);
  }

  class WalDirectory {
    const fate: nat -> Fate
    var calls: nat
    var segments: seq<string>

    constructor (fate: nat -> Fate, segments: seq<string>)
      ensures this.fate == fate && this.segments == segments && calls == 0
    {
      this.fate, this.segments, calls := fate, segments, 0;
    }

    method Find() returns (stdout: Option<string>)
      modifies this`calls
      ensures calls == old(calls) + 1
      ensures stdout == if fate(old(calls)) == Done then Some(Terminated(Paths(segments), '\n')) else None
    {
      stdout := if fate(calls) == Done then Some(Terminated(Paths(segments), '\n')) else None;
      calls := calls + 1;
    }

    /** `rm -f` of all the paths in one command. */
    method Remove(paths: seq<string>) returns (ok: bool)
      modifies this`calls, this`segments
      ensures calls == old(calls) + 1 && ok == (fate(old(calls)) == Done)
      ensures segments == if fate(old(calls)) == Failed then old(segments) else Where(old(segments), NotListed(paths))
    {
      if fate(calls) != Failed { segments := Where(segments, NotListed(paths)); }
      ok := fate(calls) == Done;
      calls := calls + 1;
    }

    static method SelectOlder(lines: seq<string>, redo: string) returns (toDelete: seq<string>, kept: nat)
      ensures toDelete == ToDelete(lines, redo) && kept == KeptCount(lines, redo)
    {
      toDelete, kept := [], 0;
      for i := 0 to |lines|
        invariant toDelete == ToDelete(lines[..i], redo) && kept == KeptCount(lines[..i], redo)
      {
        assert lines[..i + 1][..i] == lines[..i];
        var path := TrimSpace(lines[i]);
        if path == "" { continue; }
        if LexLess(BaseName(path), redo) {
          toDelete := toDelete + [path];
        } else {
          kept := kept + 1;
        }
      }
      assert lines[..|lines|] == lines;
    }

    /** Exactly the listed segments older than the checkpoint's are deleted, and deleted and
        kept add up to what was listed; on an error either nothing or all of them are gone. */
    method DeleteWALOlderThan(redo: string) returns (ok: bool, deleted: nat, kept: nat)
      requires AllSegments(segments)
      modifies this`calls, this`segments
      ensures ok <==> fate(old(calls)) == Done &&
                      (fate(old(calls) + 1) == Done || |Where(old(segments), IsOlder(redo))| == 0)
      ensures ok ==> segments == Where(old(segments), NotOlder(redo))
      ensures ok ==>
                deleted == |Where(old(segments), IsOlder(redo))| && kept == |segments| &&
                  deleted + kept == |old(segments)|
      ensures !ok ==> segments == old(segments) || segments == Where(old(segments), NotOlder(redo))
    {
      var stdout := Find();
      if stdout.None? { return false, 0, 0; }
      SelectionOfListing(segments, redo);
      RemovingOlderLeavesTheRest(segments, redo);
      var toDelete;
      toDelete, kept := SelectOlder(Split(TrimSpace(stdout.value), '\n'), redo);
      deleted := |toDelete|;
      if deleted == 0 {
        WhereNone(segments, redo);
        return true, 0, kept;
      }
      ok := Remove(toDelete);
    }
  }

  /** With nothing older, what is not older is everything. */
  lemma {:induction false} WhereNone(names: seq<string>, redo: string)
    requires |Where(names, IsOlder(redo))| == 0
    ensures Where(names, NotOlder(redo)) == names
  {
    if names != [] {
      WhereNone(names[..|names| - 1], redo);
      assert names == names[..|names| - 1] + [names[|names| - 1]];
    }
  }

  // ----- when a prune may start -----

  /** What one replica's answer says it has replayed; None where the query failed, answered
      nothing, or answered no position. */
  function Replayed(answer: Option<string>): Option<nat> {
    match answer
    case None => None
    case Some(out) => if TrimSpace(out) == "" then None else ParseLSN(TrimSpace(out))
  }

  predicate CaughtUp(answer: Option<string>, redo: nat) {
    Replayed(answer).Some? && Replayed(answer).value >= redo
  }

  lemma CaughtUpSnoc(answers: seq<Option<string>>, answer: Option<string>, redo: nat)
    ensures AllReadable(answers + [answer]) <==> AllReadable(answers) && Replayed(answer).Some?
    ensures AllCaughtUp(answers + [answer], redo) <==> AllCaughtUp(answers, redo) && CaughtUp(answer, redo)
  {
    var all := answers + [answer];
    assert all[|answers|] == answer && forall i :: 0 <= i < |answers| ==> all[i] == answers[i];
  }

  ghost predicate AllReadable(answers: seq<Option<string>>) {
    forall i :: 0 <= i < |answers| ==> Replayed(answers[i]).Some?
  }

  /** Every ready replica has replayed at least to the checkpoint. */
  ghost predicate AllCaughtUp(answers: seq<Option<string>>, redo: nat) {
    forall i :: 0 <= i < |answers| ==> CaughtUp(answers[i], redo)
  }

  method AssertReplicasCaughtUp(answers: seq<Option<string>>, redoLSN: string, force: bool) returns (ok: bool)
    ensures ok && !force ==> answers != [] && ParseLSN(redoLSN).Some? && AllCaughtUp(answers, ParseLSN(redoLSN).value)
    ensures ok && force && answers != [] ==> ParseLSN(redoLSN).Some? && AllReadable(answers)
    ensures !ok ==> (if answers == [] then !force
                     else if ParseLSN(redoLSN).None? then true
                     else if force then !AllReadable(answers)
                     else !AllCaughtUp(answers, ParseLSN(redoLSN).value))
  {
    if |answers| == 0 { return force; }
    var redo := ParseLSN(redoLSN);
    if redo.None? { return false; }
    var lagging := Lagging(answers, redo.value);
    ok := lagging.Some? && (!lagging.value || force);
  }

  /** Whether some replica lags; None when one could not be read. */
  method Lagging(answers: seq<Option<string>>, redo: nat) returns (lagging: Option<bool>)
    ensures lagging.Some? <==> AllReadable(answers)
    ensures lagging.Some? ==> (lagging.value <==> !AllCaughtUp(answers, redo))
  {
    var behind := false;
    for i := 0 to |answers|
      invariant AllReadable(answers[..i])
      invariant behind <==> !AllCaughtUp(answers[..i], redo)
    {
      assert answers[..i + 1] == answers[..i] + [answers[i]];
      CaughtUpSnoc(answers[..i], answers[i], redo);
      var replay := Replayed(answers[i]);
      if replay.None? {
        UnreadableStays(answers, i);
        return None;
      }
      if replay.value < redo {
        behind := true;
      }
    }
    assert answers[..|answers|] == answers;
    lagging := Some(behind);
  }

  lemma UnreadableStays(answers: seq<Option<string>>, i: nat)
    requires i < |answers| && Replayed(answers[i]).None?
    ensures !AllReadable(answers)
  {}

  lemma PrintedAnswerIsRead(lsn: nat)
    requires lsn < TWO64
    ensures Replayed(Some(PrintLSN(lsn))) == Some(lsn)
  {
    LSNRoundTrip(lsn);
    PrintIsSlashFree(lsn / TWO32);
    PrintIsSlashFree(lsn % TWO32);
    TrimNothing(PrintLSN(lsn));
  }

  /** Over the positions the replicas print: all are caught up exactly when each is at the
      checkpoint's position or past it. */
  lemma PrintedAnswersDecide(positions: seq<nat>, answers: seq<Option<string>>, redo: nat)
    requires |answers| == |positions|
    requires forall i :: 0 <= i < |positions| ==> positions[i] < TWO64 && answers[i] == Some(PrintLSN(positions[i]))
    ensures AllReadable(answers)
    ensures AllCaughtUp(answers, redo) <==> forall i :: 0 <= i < |positions| ==> redo <= positions[i]
  {
    forall i | 0 <= i < |positions| ensures Replayed(answers[i]) == Some(positions[i]) {
      PrintedAnswerIsRead(positions[i]);
    }
    forall i | 0 <= i < |positions| ensures CaughtUp(answers[i], redo) <==> redo <= positions[i] {}
  }

  // ----- handing a recovered primary back -----

  datatype InstancePos = InstancePos(pod: string, timeline: int, lsn: nat)

  method SafeToReleaseRecoveredPrimary(recovered: InstancePos, replicas: seq<InstancePos>) returns (safe: bool)
    ensures safe <==> exists i :: 0 <= i < |replicas| && CaughtUpWith(recovered, replicas[i])
  {
    for i := 0 to |replicas|
      invariant forall j :: 0 <= j < i ==> !CaughtUpWith(recovered, replicas[j])
    {
      if replicas[i].timeline == recovered.timeline && replicas[i].lsn >= recovered.lsn { return true; }
    }
    safe := false;
  }

  predicate CaughtUpWith(recovered: InstancePos, replica: InstancePos) {
    replica.timeline == recovered.timeline && replica.lsn >= recovered.lsn
  }

  function PosOf(x: Instance): InstancePos
    requires x.checkpointLSN >= 0
  {
    InstancePos(x.pod, x.timeline, x.checkpointLSN)
  }

  /** On one timeline, whose id fixes the history, a replica is caught up exactly when it
      holds all of the recovered instance's WAL. */
  lemma CaughtUpMeansContains(recovered: Instance, replica: Instance)
    requires recovered.checkpointLSN >= 0 && replica.checkpointLSN >= 0
    requires recovered.timeline == replica.timeline && recovered.switches == replica.switches
    requires SegmentStart(recovered, |recovered.switches|) < recovered.checkpointLSN
    ensures CaughtUpWith(PosOf(recovered), PosOf(replica)) <==> Contains(replica, recovered)
  {
    var n := |recovered.switches|;
    var tip := Position(recovered.switches, recovered.timeline, recovered.checkpointLSN);
    assert recovered.switches[..n] == recovered.switches;
    assert Holds(recovered, tip);
    assert Holds(replica, tip) <==> recovered.checkpointLSN <= replica.checkpointLSN;
    if recovered.checkpointLSN <= replica.checkpointLSN {
      forall p | Holds(recovered, p) ensures Holds(replica, p) {
        assert SegmentStart(replica, |p.branch|) == SegmentStart(recovered, |p.branch|);
      }
    }
  }

  ghost predicate JudgedSafe(recovered: Instance, replicas: seq<Instance>)
    requires recovered.checkpointLSN >= 0 && AllWritten(replicas)
  {
    exists i :: 0 <= i < |replicas| && CaughtUpWith(PosOf(recovered), PosOf(replicas[i]))
  }

  predicate AllWritten(replicas: seq<Instance>) {
    forall i :: 0 <= i < |replicas| ==> replicas[i].checkpointLSN >= 0
  }

  /** A timeline id fixes the history up to it. */
  predicate SharesHistory(x: Instance, y: Instance) {
    x.timeline == y.timeline ==> x.switches == y.switches
  }

  /** Release is judged safe exactly when the furthest replica on the recovered primary's timeline
      holds everything that primary holds. */
  lemma SafeReleaseKeepsTheWAL(recovered: Instance, replicas: seq<Instance>, furthest: nat)
    requires recovered.checkpointLSN >= 0 && AllWritten(replicas) && furthest < |replicas|
    requires SegmentStart(recovered, |recovered.switches|) < recovered.checkpointLSN
    requires replicas[furthest].timeline == recovered.timeline && SharesHistory(recovered, replicas[furthest])
    requires forall i :: 0 <= i < |replicas| && replicas[i].timeline == recovered.timeline ==>
               replicas[i].checkpointLSN <= replicas[furthest].checkpointLSN
    ensures JudgedSafe(recovered, replicas) <==> Contains(replicas[furthest], recovered)
  {
    CaughtUpMeansContains(recovered, replicas[furthest]);
    if CaughtUpWith(PosOf(recovered), PosOf(replicas[furthest])) {
      assert JudgedSafe(recovered, replicas);
    }
  }

  /** Whichever replica is promoted then holds everything exactly when it did not fork away before
      the recovered primary's end; on the primary's own timeline the most advanced one always does. */
  lemma PromotedHoldsTheWALIff(recovered: Instance, replicas: seq<Instance>, promoted: nat)
    requires recovered.checkpointLSN >= 0 && AllWritten(replicas) && promoted < |replicas|
    requires WellFormed(recovered) && WellFormed(replicas[promoted]) && SharesHistory(recovered, replicas[promoted])
    requires SegmentStart(recovered, |recovered.switches|) < recovered.checkpointLSN
    requires forall i :: 0 <= i < |replicas| ==> replicas[i].checkpointLSN <= replicas[promoted].checkpointLSN
    requires JudgedSafe(recovered, replicas)
    ensures Contains(replicas[promoted], recovered) <==>
              recovered.checkpointLSN <= TrueFork(replicas[promoted], recovered)
    ensures replicas[promoted].timeline == recovered.timeline ==> Contains(replicas[promoted], recovered)
  {
    ContainsIff(replicas[promoted], recovered);
    if replicas[promoted].timeline == recovered.timeline { CaughtUpMeansContains(recovered, replicas[promoted]); }
  }

  /** Beside any replica that makes release safe there may be one on another timeline, forked away
      before the recovered primary's end and numerically further, which lacks the primary's WAL:
      release is still judged safe. */
  lemma ForkedReplicaMayBeFurthest(recovered: Instance, caught: Instance, fork: int, timeline: int)
    returns (ahead: Instance)
    requires WellFormed(recovered) && SegmentStart(recovered, |recovered.switches|) <= fork < recovered.checkpointLSN
    requires recovered.checkpointLSN >= 0 && caught.checkpointLSN >= 0
    requires CaughtUpWith(PosOf(recovered), PosOf(caught)) && timeline != recovered.timeline
    ensures ahead.timeline == timeline && ahead.checkpointLSN > caught.checkpointLSN && WellFormed(ahead)
    ensures ahead.switches == recovered.switches + [SwitchPoint(recovered.timeline, fork)]
    ensures JudgedSafe(recovered, [caught, ahead]) && !Contains(ahead, recovered)
  {
    var n := |recovered.switches|;
    ahead := Instance("forked", false, Read, timeline, caught.checkpointLSN + 1,
                      recovered.switches + [SwitchPoint(recovered.timeline, fork)]);
    forall i | 0 <= i <= n + 1 ensures SegmentStart(ahead, i) <= SegmentEnd(ahead, i) {
      if i <= n {
        assert SegmentStart(ahead, i) == SegmentStart(recovered, i) <= SegmentEnd(recovered, i);
      }
    }
    var tip := Position(recovered.switches, recovered.timeline, recovered.checkpointLSN);
    assert recovered.switches[..n] == recovered.switches;
    assert Holds(recovered, tip) && !Holds(ahead, tip);
    assert [caught, ahead][0] == caught;
  }
}
