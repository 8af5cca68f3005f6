// Timeline-history files: selecting one timeline's file out of the collected blob, parsing
// it into switch points, and the proof that nothing printed is lost or misread.
module History {
  import opened Options
  import opened Text
  import opened Numbers
  import opened Lineage

  // ----- the parsers -----

  function WrapInt64(v: int): int {
    (v + TWO63) % TWO64 - TWO63
  }

  function ParseLSNValue(lsn: string): int {
    if lsn == "" || lsn == "unknown" then 0
    else
      var parts := Split(lsn, '/');
      if |parts| != 2 then 0
      else
        match (ParseInt64(parts[0], 16), ParseInt64(parts[1], 16))
        case (Some(hi), Some(lo)) => WrapInt64(hi * TWO32 + lo)
        case _ => 0
  }

  function ParseTimelineInt(tl: string): int {
    var t := TrimSpace(tl);
    if t == "" || t == "unknown" then 0
    else
      match ParseInt64(t, 10)
      case Some(n) => n
      case None => 0
  }

  /** What one line of a history file contributes: a switch point, or nothing. */
  function ParseLine(line: string): seq<SwitchPoint> {
    var fields := Fields(line);
    if |fields| < 2 then []
    else
      var tl, lsn := ParseTimelineInt(fields[0]), ParseLSNValue(fields[1]);
      if tl == 0 || lsn == 0 then [] else [SwitchPoint(tl, lsn)]
  }

  function ParseLines(lines: seq<string>): seq<SwitchPoint> {
    if lines == [] then [] else ParseLines(lines[..|lines| - 1]) + ParseLine(lines[|lines| - 1])
  }

  method ParseTimelineHistory(raw: string) returns (sps: seq<SwitchPoint>)
    ensures sps == ParseLines(Split(raw, '\n'))
  {
    var lines := Split(raw, '\n');
    sps := [];
    for i := 0 to |lines|
      invariant sps == ParseLines(lines[..i])
    {
      assert lines[..i + 1][..i] == lines[..i];
      var fields := Fields(lines[i]);
      if |fields| < 2 { continue; }
      var tl, lsn := ParseTimelineInt(fields[0]), ParseLSNValue(fields[1]);
      if tl == 0 || lsn == 0 { continue; }
      sps := sps + [SwitchPoint(tl, lsn)];
    }
    assert lines[..|lines|] == lines;
  }

  predicate HasSubstring(s: string, sub: string) {
    exists i :: 0 <= i <= |s| - |sub| && MatchAt(s, sub, i)
  }

  predicate IsMarker(line: string) {
    "###" <= TrimSpace(line)
  }

  /** The marker line of a timeline's file: ###%08X.history. */
  function Marker(timeline: nat): string {
    "###" + PrintPadded(timeline, 16, 8) + ".history"
  }

  /** Whether the walk is inside the wanted file after these lines. */
  function InsideAfter(lines: seq<string>, want: string): bool {
    if lines == [] then false
    else
      var last := lines[|lines| - 1];
      if IsMarker(last) then TrimSpace(last) == want else InsideAfter(lines[..|lines| - 1], want)
  }

  function Selected(lines: seq<string>, want: string): seq<string> {
    if lines == [] then []
    else
      var init, last := lines[..|lines| - 1], lines[|lines| - 1];
      Selected(init, want) + if !IsMarker(last) && InsideAfter(init, want) then [last] else []
  }

  method HistoryForTimeline(raw: string, timeline: int) returns (r: string)
    ensures r == HistoryOf(raw, timeline)
  {
    if !HasSubstring(raw, "###") { return raw; }
    if timeline <= 0 { return ""; }
    var want := Marker(timeline);
    var out: seq<string> := [];
    var inside := false;
    var lines := Split(raw, '\n');
    for i := 0 to |lines|
      invariant out == Selected(lines[..i], want) && inside == InsideAfter(lines[..i], want)
    {
      assert lines[..i + 1][..i] == lines[..i];
      if "###" <= TrimSpace(lines[i]) {
        inside := TrimSpace(lines[i]) == want;
        continue;
      }
      if inside {
        out := out + [lines[i]];
      }
    }
    assert lines[..|lines|] == lines;
    r := Join(out, '\n');
  }

  function HistoryOf(raw: string, timeline: int): string {
    if !HasSubstring(raw, "###") then raw
    else if timeline <= 0 then ""
    else Join(Selected(Split(raw, '\n'), Marker(timeline)), '\n')
  }

  /** The lineage triage works with. */
  function LineageOf(raw: string, timeline: int): seq<SwitchPoint> {
    ParseLines(Split(HistoryOf(raw, timeline), '\n'))
  }

  // ----- what is on disk -----

  datatype Entry = Entry(parent: nat, lsn: nat, reason: string)
  datatype HistoryFile = HistoryFile(timeline: nat, entries: seq<Entry>)

  function EntryLine(e: Entry): string {
    Print(e.parent, 10) + "\t" + PrintLSN(e.lsn) + "\t" + e.reason
  }

  function EntryLines(es: seq<Entry>): seq<string> {
    if es == [] then [] else EntryLines(es[..|es| - 1]) + [EntryLine(es[|es| - 1])]
  }

  /** What the collection command prints: each file under its marker, in any order. */
  function BlobLines(files: seq<HistoryFile>): seq<string> {
    if files == [] then []
    else
      var f := files[|files| - 1];
      BlobLines(files[..|files| - 1]) + [Marker(f.timeline)] + EntryLines(f.entries)
  }

  /** The switch a printed entry stands for; positions are 64-bit words read as signed. */
  function SwitchOf(e: Entry): SwitchPoint {
    SwitchPoint(e.parent, WrapInt64(e.lsn))
  }

  function Chain(es: seq<Entry>): seq<SwitchPoint> {
    if es == [] then [] else Chain(es[..|es| - 1]) + [SwitchOf(es[|es| - 1])]
  }

  predicate ValidEntry(e: Entry) {
    0 < e.parent < TWO63 && 0 < e.lsn < TWO64 && Free(e.reason, '\n')
  }

  predicate ValidFiles(files: seq<HistoryFile>) {
    && (forall i, j :: 0 <= i < j < |files| ==> files[i].timeline != files[j].timeline)
    && (forall i :: 0 <= i < |files| ==> files[i].timeline > 0)
    && (forall i :: 0 <= i < |files| ==> forall j :: 0 <= j < |files[i].entries| ==> ValidEntry(files[i].entries[j]))
  }

  // ----- LSNs and single lines -----

  /** Parsing a printed LSN gives it back, for every 64-bit LSN, as a signed word. */
  lemma LSNRoundTrip(lsn: nat)
    requires lsn < TWO64
    ensures ParseLSNValue(PrintLSN(lsn)) == WrapInt64(lsn)
    ensures lsn < TWO63 ==> WrapInt64(lsn) == lsn
    ensures lsn > 0 ==> WrapInt64(lsn) != 0
  {
    var hi, lo := lsn / TWO32, lsn % TWO32;
    SplitPrintedLSN(lsn);
    ParseInt64Printed(hi, 16);
    ParseInt64Printed(lo, 16);
    WrapIsExact(lsn);
  }

  lemma WrapIsExact(lsn: nat)
    requires lsn < TWO64
    ensures lsn < TWO63 ==> WrapInt64(lsn) == lsn
    ensures lsn >= TWO63 ==> WrapInt64(lsn) == lsn - TWO64
  {}

  lemma SplitPrintedLSN(lsn: nat)
    ensures Split(PrintLSN(lsn), '/') == [Print(lsn / TWO32, 16), Print(lsn % TWO32, 16)]
    ensures PrintLSN(lsn) != "" && PrintLSN(lsn) != "unknown"
  {
    var h, l := Print(lsn / TWO32, 16), Print(lsn % TWO32, 16);
    HexIsPlain(lsn / TWO32);
    HexIsPlain(lsn % TWO32);
    SplitHead(h, l, '/');
    SplitWhole(l, '/');
    assert PrintLSN(lsn) == h + ['/'] + l;
    HasSlash(PrintLSN(lsn), |h|);
  }

  lemma HasSlash(s: string, i: nat)
    requires i < |s| && s[i] == '/'
    ensures s != "unknown"
  {
    assert Free("unknown", '/');
  }

  lemma HexIsPlain(n: nat)
    ensures Free(Print(n, 16), '/') && Free(Print(n, 16), '\n') && Free(Print(n, 10), '\n')
    ensures IsWord(Print(n, 16)) && IsWord(Print(n, 10))
  {
    forall i | 0 <= i < |Print(n, 16)| ensures IsUpperHex(Print(n, 16)[i]) { assert Print(n, 16)[i] in Print(n, 16); }
    forall i | 0 <= i < |Print(n, 10)| ensures IsUpperHex(Print(n, 10)[i]) { assert Print(n, 10)[i] in Print(n, 10); }
  }

  lemma LSNIsWord(lsn: nat)
    ensures IsWord(PrintLSN(lsn)) && Free(PrintLSN(lsn), '\n')
  {
    HexIsPlain(lsn / TWO32);
    HexIsPlain(lsn % TWO32);
  }

  lemma TimelineRoundTrip(tl: nat)
    requires 0 < tl < TWO63
    ensures ParseTimelineInt(Print(tl, 10)) == tl
  {
    var t := Print(tl, 10);
    HexIsPlain(tl);
    TrimNothing(t);
    ParseInt64Printed(tl, 10);
    assert IsUpperHex(t[0]) && "unknown"[0] == 'u' by { assert t[0] in t; }
  }

  /** A printed entry parses back to its switch point. */
  lemma EntryRoundTrip(e: Entry)
    requires ValidEntry(e)
    ensures ParseLine(EntryLine(e)) == [SwitchOf(e)]
  {
    var tl, lsn := Print(e.parent, 10), PrintLSN(e.lsn);
    HexIsPlain(e.parent);
    LSNIsWord(e.lsn);
    var tail := lsn + ['\t'] + e.reason;
    assert EntryLine(e) == tl + ['\t'] + tail;
    FieldsHead(tl, '\t', tail);
    FieldsHead(lsn, '\t', e.reason);
    assert Fields(EntryLine(e)) == [tl] + ([lsn] + Fields(e.reason));
    TimelineRoundTrip(e.parent);
    LSNRoundTrip(e.lsn);
  }

  lemma EntryLineShape(e: Entry)
    requires ValidEntry(e)
    ensures Free(EntryLine(e), '\n') && !IsMarker(EntryLine(e))
  {
    var tl := Print(e.parent, 10);
    HexIsPlain(e.parent);
    LSNIsWord(e.lsn);
    var line := EntryLine(e);
    assert line[0] == tl[0] && IsUpperHex(tl[0]) by { assert tl[0] in tl; }
    TrimRightKeepsStart(line);
  }

  lemma MarkerShape(timeline: nat)
    ensures Free(Marker(timeline), '\n') && IsMarker(Marker(timeline))
    ensures TrimSpace(Marker(timeline)) == Marker(timeline)
  {
    HexIsPlain(timeline);
    TrimNothing(Marker(timeline));
  }

  lemma MarkerInjective(m: nat, n: nat)
    requires Marker(m) == Marker(n)
    ensures m == n
  {
    var p, q := PrintPadded(m, 16, 8), PrintPadded(n, 16, 8);
    assert |p| == |q|;
    assert p == Marker(m)[3..3 + |p|] && q == Marker(n)[3..3 + |q|];
    PrintPaddedInjective(m, n, 16, 8);
  }

  // ----- selecting and parsing whole blobs -----

  lemma SelectSnoc(lines: seq<string>, last: string, want: string)
    ensures Selected(lines + [last], want) ==
            Selected(lines, want) + if !IsMarker(last) && InsideAfter(lines, want) then [last] else []
    ensures InsideAfter(lines + [last], want) ==
            if IsMarker(last) then TrimSpace(last) == want else InsideAfter(lines, want)
  {
    assert (lines + [last])[..|lines|] == lines;
  }

  ghost predicate NoMarkers(lines: seq<string>) {
    forall i :: 0 <= i < |lines| ==> !IsMarker(lines[i])
  }

  /** Lines that are not markers never open or close a file. */
  lemma {:induction false} SelectPlain(lines: seq<string>, plain: seq<string>, want: string)
    requires NoMarkers(plain)
    ensures InsideAfter(lines + plain, want) == InsideAfter(lines, want)
    ensures Selected(lines + plain, want) ==
            Selected(lines, want) + if InsideAfter(lines, want) then plain else []
  {
    if plain == [] {
      assert lines + plain == lines;
    } else {
      var init, last := plain[..|plain| - 1], plain[|plain| - 1];
      SelectPlain(lines, init, want);
      SelectPlainStep(lines, init, last, want);
      assert init + [last] == plain;
    }
  }

  lemma SelectPlainStep(lines: seq<string>, init: seq<string>, last: string, want: string)
    requires !IsMarker(last) && InsideAfter(lines + init, want) == InsideAfter(lines, want)
    requires Selected(lines + init, want) == Selected(lines, want) + if InsideAfter(lines, want) then init else []
    ensures InsideAfter(lines + (init + [last]), want) == InsideAfter(lines, want)
    ensures Selected(lines + (init + [last]), want) ==
            Selected(lines, want) + if InsideAfter(lines, want) then init + [last] else []
  {
    assert lines + (init + [last]) == (lines + init) + [last];
    SelectSnoc(lines + init, last, want);
  }

  /** Printed entries are plain lines and parse to the chain they print. */
  lemma {:induction false} EntriesRoundTrip(es: seq<Entry>)
    requires forall j :: 0 <= j < |es| ==> ValidEntry(es[j])
    ensures NoMarkers(EntryLines(es)) && AllFree(EntryLines(es), '\n')
    ensures ParseLines(EntryLines(es)) == Chain(es)
  {
    if es != [] {
      var init, last := es[..|es| - 1], es[|es| - 1];
      EntriesRoundTrip(init);
      EntryLineShape(last);
      EntryRoundTrip(last);
      ParseSnoc(EntryLines(init), EntryLine(last));
    }
  }

  function EntriesFor(files: seq<HistoryFile>, timeline: nat): seq<Entry> {
    if files == [] then []
    else if files[|files| - 1].timeline == timeline then files[|files| - 1].entries
    else EntriesFor(files[..|files| - 1], timeline)
  }

  lemma FreeConcat(a: seq<string>, b: seq<string>, c: char)
    requires AllFree(a, c) && AllFree(b, c)
    ensures AllFree(a + b, c)
  {}

  lemma {:induction false} BlobIsFree(files: seq<HistoryFile>)
    requires ValidFiles(files)
    ensures AllFree(BlobLines(files), '\n')
  {
    if files != [] {
      var init, f := files[..|files| - 1], files[|files| - 1];
      BlobIsFree(init);
      MarkerShape(f.timeline);
      EntriesRoundTrip(f.entries);
      FreeConcat(BlobLines(init), [Marker(f.timeline)], '\n');
      FreeConcat(BlobLines(init) + [Marker(f.timeline)], EntryLines(f.entries), '\n');
    }
  }

  lemma {:induction false} SelectFromBlob(files: seq<HistoryFile>, timeline: nat)
    requires ValidFiles(files)
    ensures Selected(BlobLines(files), Marker(timeline)) == EntryLines(EntriesFor(files, timeline))
  {
    if files != [] {
      var init, f := files[..|files| - 1], files[|files| - 1];
      SelectFromBlob(init, timeline);
      OneMoreFile(BlobLines(init), f, timeline);
      if f.timeline == timeline { AbsentTimeline(init, timeline); }
    }
  }

  /** A marker and the plain lines after it: selected when it is the wanted marker. */
  lemma SelectFile(lines: seq<string>, marker: string, plain: seq<string>, want: string)
    requires IsMarker(marker) && TrimSpace(marker) == marker && NoMarkers(plain)
    ensures Selected(lines + [marker] + plain, want) == Selected(lines, want) + if marker == want then plain else []
  {
    SelectSnoc(lines, marker, want);
    SelectPlain(lines + [marker], plain, want);
    assert Selected(lines, want) + [] == Selected(lines, want);
  }

  lemma MarkersDiffer(m: nat, n: nat)
    ensures Marker(m) == Marker(n) <==> m == n
  {
    if Marker(m) == Marker(n) { MarkerInjective(m, n); }
  }

  /** One more file adds its entries if it is the wanted one, and nothing otherwise. */
  lemma OneMoreFile(lines: seq<string>, f: HistoryFile, timeline: nat)
    requires forall j :: 0 <= j < |f.entries| ==> ValidEntry(f.entries[j])
    ensures Selected(lines + [Marker(f.timeline)] + EntryLines(f.entries), Marker(timeline)) ==
            Selected(lines, Marker(timeline)) + if f.timeline == timeline then EntryLines(f.entries) else []
  {
    MarkerShape(f.timeline);
    MarkersDiffer(f.timeline, timeline);
    EntriesRoundTrip(f.entries);
    SelectFile(lines, Marker(f.timeline), EntryLines(f.entries), Marker(timeline));
  }

  lemma {:induction false} AbsentTimeline(files: seq<HistoryFile>, timeline: nat)
    requires forall i :: 0 <= i < |files| ==> files[i].timeline != timeline
    ensures EntriesFor(files, timeline) == []
  {
    if files != [] { AbsentTimeline(files[..|files| - 1], timeline); }
  }

  lemma {:induction false} PresentTimeline(files: seq<HistoryFile>, i: nat)
    requires i < |files| && ValidFiles(files)
    ensures EntriesFor(files, files[i].timeline) == files[i].entries
  {
    if i < |files| - 1 { PresentTimeline(files[..|files| - 1], i); }
  }

  lemma {:induction false} EntriesAreValid(files: seq<HistoryFile>, timeline: nat)
    requires ValidFiles(files)
    ensures forall j :: 0 <= j < |EntriesFor(files, timeline)| ==> ValidEntry(EntriesFor(files, timeline)[j])
  {
    if files != [] { EntriesAreValid(files[..|files| - 1], timeline); }
  }

  // ----- trailing white space does not matter -----

  /** Trimming the end of the blob (the collector does) never changes the lineage read. */
  lemma TrimmingIsHarmless(lines: seq<string>, last: string, c: char, want: string)
    requires IsSpace(c)
    ensures ParseLines(Selected(lines + [last + [c]], want)) == ParseLines(Selected(lines + [last], want))
  {
    TrimDropsTrailing(last, c);
    FieldsDropTrailing(last, c);
    SelectSnoc(lines, last, want);
    SelectSnoc(lines, last + [c], want);
    ParseSnoc(Selected(lines, want), last);
    ParseSnoc(Selected(lines, want), last + [c]);
  }

  lemma ParseSnoc(lines: seq<string>, last: string)
    ensures ParseLines(lines + [last]) == ParseLines(lines) + ParseLine(last)
  {
    assert (lines + [last])[..|lines|] == lines;
  }

  /** One trailing space, or newline, more or less. */
  lemma OneSpaceIsHarmless(init: string, c: char, want: string)
    requires IsSpace(c)
    ensures ParseLines(Selected(Split(init + [c], '\n'), want)) == ParseLines(Selected(Split(init, '\n'), want))
  {
    SplitSnoc(init, c, '\n');
    var p := Split(init, '\n');
    if c == '\n' {
      ParseTail(p, want);
    } else {
      assert p == p[..|p| - 1] + [p[|p| - 1]];
      TrimmingIsHarmless(p[..|p| - 1], p[|p| - 1], c, want);
    }
  }

  lemma {:induction false} SelectedTrimmed(raw: string, want: string)
    ensures ParseLines(Selected(Split(TrimRight(raw), '\n'), want)) == ParseLines(Selected(Split(raw, '\n'), want))
    decreases |raw|
  {
    if raw != "" && IsSpace(raw[|raw| - 1]) {
      var init, c := raw[..|raw| - 1], raw[|raw| - 1];
      assert raw == init + [c];
      OneSpaceIsHarmless(init, c, want);
      SelectedTrimmed(init, want);
    }
  }

  /** Re-joining the selected lines and splitting them again reads the same switch points. */
  lemma ParseRejoined(lines: seq<string>)
    requires AllFree(lines, '\n')
    ensures ParseLines(Split(Join(lines, '\n'), '\n')) == ParseLines(lines)
  {
    if lines != [] {
      SplitJoined(lines, '\n');
    } else {
      assert Split("", '\n') == [""] && ParseLine("") == [];
      assert [""][..0] == [];
    }
  }

  /** The round trip: from any printed set of history files, trimmed the way it is collected,
      the lineage read for timeline n is exactly the chain written to n's own file, whatever
      the other files repeat, and empty if n has no file. */
  lemma HistoryRoundTrip(files: seq<HistoryFile>, timeline: nat)
    requires ValidFiles(files) && files != [] && timeline > 0
    ensures LineageOf(TrimSpace(Terminated(BlobLines(files), '\n')), timeline) == Chain(EntriesFor(files, timeline))
    ensures forall i :: 0 <= i < |files| && files[i].timeline == timeline ==>
              LineageOf(TrimSpace(Terminated(BlobLines(files), '\n')), timeline) == Chain(files[i].entries)
  {
    var lines, want := BlobLines(files), Marker(timeline);
    var blob := Terminated(lines, '\n');
    SelectFromBlob(files, timeline);
    EntriesAreValid(files, timeline);
    EntriesRoundTrip(EntriesFor(files, timeline));
    BlobIsFree(files);
    SplitTerminated(lines, '\n');
    ParseTail(lines, want);
    BlobStart(files);
    TrimRightKeepsStart(blob);
    SelectedTrimmed(blob, want);
    StillMarked(blob);
    var trimmed := TrimRight(blob);
    SplitPieces(trimmed, '\n');
    SelectedFree(Split(trimmed, '\n'), want);
    ParseRejoined(Selected(Split(trimmed, '\n'), want));
    forall i | 0 <= i < |files| && files[i].timeline == timeline
      ensures EntriesFor(files, timeline) == files[i].entries
    {
      PresentTimeline(files, i);
    }
  }

  lemma ParseTail(lines: seq<string>, want: string)
    ensures ParseLines(Selected(lines + [""], want)) == ParseLines(Selected(lines, want))
  {
    SelectSnoc(lines, "", want);
    ParseSnoc(Selected(lines, want), "");
    if !IsMarker("") && InsideAfter(lines, want) {
      assert ParseLine("") == [];
    } else {
      assert Selected(lines, want) + [] == Selected(lines, want);
    }
  }

  lemma {:induction false} SelectedFree(lines: seq<string>, want: string)
    requires AllFree(lines, '\n')
    ensures AllFree(Selected(lines, want), '\n')
  {
    if lines != [] { SelectedFree(lines[..|lines| - 1], want); }
  }

  lemma {:induction false} BlobStart(files: seq<HistoryFile>)
    requires files != []
    ensures "###" <= Terminated(BlobLines(files), '\n')
  {
    BlobHead(files);
    var lines := BlobLines(files);
    assert Terminated(lines, '\n')[..3] == lines[0][..3];
  }

  lemma {:induction false} BlobHead(files: seq<HistoryFile>)
    requires files != []
    ensures BlobLines(files) != [] && BlobLines(files)[0] == Marker(files[0].timeline)
  {
    if |files| > 1 { BlobHead(files[..|files| - 1]); }
  }

  lemma StillMarked(blob: string)
    requires "###" <= blob
    ensures HasSubstring(TrimRight(blob), "###")
  {
    TrimKeepsPrefix(blob);
    assert MatchAt(TrimRight(blob), "###", 0);
  }

  lemma {:induction false} TrimKeepsPrefix(s: string)
    requires "###" <= s
    ensures "###" <= TrimRight(s)
    decreases |s|
  {
    if IsSpace(s[|s| - 1]) {
      assert s[2] == '#';
      assert |s| > 3;
      assert s[..|s| - 1][..3] == s[..3];
      TrimKeepsPrefix(s[..|s| - 1]);
    }
  }
}
